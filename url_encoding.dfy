/**
 * The two encoders the client core uses to build request URLs, over UTF-8:
 * `quote(s)` (path segments; section 2.1 of RFC 3986, keeping the unreserved characters
 * and `/`) and `urlencode(params)` (application/x-www-form-urlencoded serialisation,
 * section 5.2 of the WHATWG URL Standard as Python's `quote_plus` does it: space becomes
 * `+`, `/` is escaped). The decoders are the reference against which both are checked.
 */
module UrlEncoding {
  import opened Wrappers
  import opened Text

  type byte = x: int | 0 <= x < 256

  /** Query parameters, in the insertion order of the Python dict. */
  type Params = seq<(string, string)>

  /** The UTF-8 encoding of one character (section 3 of RFC 3629). */
  function EncodeChar(c: char): (bs: seq<byte>)
    ensures 1 <= |bs| <= 4
    ensures c as int < 0x80 ==> bs == [c as int]
    ensures c as int >= 0x80 ==> forall i :: 0 <= i < |bs| ==> bs[i] >= 0x80
  {
    var n := c as int;
    if n < 0x80 then [n]
    else if n < 0x800 then [0xC0 + n / 0x40, 0x80 + n % 0x40]
    else if n < 0x10000 then [0xE0 + n / 0x1000, 0x80 + (n / 0x40) % 0x40, 0x80 + n % 0x40]
    else [0xF0 + n / 0x40000, 0x80 + (n / 0x1000) % 0x40, 0x80 + (n / 0x40) % 0x40, 0x80 + n % 0x40]
  }

  /** `s.encode("utf-8")`. */
  function Utf8(s: string): (bs: seq<byte>)
  {
    if |s| == 0 then [] else EncodeChar(s[0]) + Utf8(s[1..])
  }

  /** How many bytes the UTF-8 sequence that starts with lead byte `b` has. */
  function SequenceLength(b: byte): (len: nat)
  {
    if b < 0x80 then 1 else if b < 0xE0 then 2 else if b < 0xF0 then 3 else 4
  }

  /** The code point a well-formed 1-4 byte UTF-8 sequence stands for. */
  function CodePoint(bs: seq<byte>): (cp: int)
    requires 1 <= |bs| <= 4
  {
    var b0 := bs[0] as int;
    if |bs| == 1 then b0
    else if |bs| == 2 then (b0 - 0xC0) * 0x40 + (bs[1] as int - 0x80)
    else if |bs| == 3 then (b0 - 0xE0) * 0x1000 + (bs[1] as int - 0x80) * 0x40 + (bs[2] as int - 0x80)
    else (b0 - 0xF0) * 0x40000 + (bs[1] as int - 0x80) * 0x1000 + (bs[2] as int - 0x80) * 0x40 + (bs[3] as int - 0x80)
  }

  /** The lead byte of a character's encoding announces its length, and the bytes give its code point back. */
  lemma EncodeCharDecodes(c: char)
    ensures |EncodeChar(c)| == SequenceLength(EncodeChar(c)[0])
    ensures CodePoint(EncodeChar(c)) == c as int
  {
    var n := c as int;
    if 0x800 <= n < 0x10000 {
      ThreeByteDigits(n);
    } else if n >= 0x10000 {
      FourByteDigits(n);
    }
  }

  /** The base-64 digits of a code point that takes three bytes, most significant first. */
  lemma ThreeByteDigits(n: int)
    requires 0x800 <= n < 0x10000
    ensures 0 <= n / 0x1000 < 0x10
    ensures (n / 0x1000) * 0x1000 + ((n / 0x40) % 0x40) * 0x40 + n % 0x40 == n
  {
    assert n / 0x40 == (n / 0x1000) * 0x40 + (n / 0x40) % 0x40;
  }

  /** The base-64 digits of a code point that takes four bytes, most significant first. */
  lemma FourByteDigits(n: int)
    requires 0x10000 <= n < 0x11_0000
    ensures 0 <= n / 0x40000 <= 4
    ensures (n / 0x40000) * 0x40000 + ((n / 0x1000) % 0x40) * 0x1000 + ((n / 0x40) % 0x40) * 0x40 + n % 0x40 == n
  {
    assert n / 0x40 == (n / 0x1000) * 0x40 + (n / 0x40) % 0x40;
    assert n / 0x1000 == (n / 0x40000) * 0x40 + (n / 0x1000) % 0x40;
  }

  /** The reference decoder: `bytes.decode("utf-8")` for the sequences `EncodeChar` produces. */
  function DecodeUtf8(bs: seq<byte>): (s: Option<string>)
  {
    if |bs| == 0 then Some([])
    else
      var len := SequenceLength(bs[0]);
      if |bs| < len then None
      else
        var cp := CodePoint(bs[..len]);
        if !(0 <= cp < 0xD800 || 0xE000 <= cp < 0x11_0000) then None
        else
          match DecodeUtf8(bs[len..])
          case None => None
          case Some(rest) => Some([cp as char] + rest)
  }

  /** Decoding gives back the text that was encoded. */
  lemma {:induction false} Utf8RoundTrip(s: string)
    ensures DecodeUtf8(Utf8(s)) == Some(s)
  {
    if |s| > 0 {
      var e := EncodeChar(s[0]);
      var bs := Utf8(s);
      EncodeCharDecodes(s[0]);
      assert bs == e + Utf8(s[1..]);
      assert bs[0] == e[0];
      assert bs[..|e|] == e;
      assert bs[|e|..] == Utf8(s[1..]);
      Utf8RoundTrip(s[1..]);
      assert s == [s[0]] + s[1..];
    }
  }

  /** Distinct texts have distinct encodings. */
  lemma Utf8Injective(a: string, b: string)
    requires Utf8(a) == Utf8(b)
    ensures a == b
  {
    Utf8RoundTrip(a);
    Utf8RoundTrip(b);
  }

  /** The bytes `quote` never escapes: ASCII letters, digits and `_.-~`. */
  predicate AlwaysSafe(b: int)
  {
    ('A' as int <= b <= 'Z' as int) || ('a' as int <= b <= 'z' as int) || ('0' as int <= b <= '9' as int)
    || b == '_' as int || b == '.' as int || b == '-' as int || b == '~' as int
  }

  function HexDigit(d: int): (c: char)
    requires 0 <= d < 16
  {
    if d < 10 then ('0' as int + d) as char else ('A' as int + d - 10) as char
  }

  /** Value of a hexadecimal digit, either case. */
  function HexValue(c: char): (v: Option<int>)
    ensures v.Some? ==> 0 <= v.value < 16
  {
    if '0' <= c <= '9' then Some(c as int - '0' as int)
    else if 'A' <= c <= 'F' then Some(c as int - 'A' as int + 10)
    else if 'a' <= c <= 'f' then Some(c as int - 'a' as int + 10)
    else None
  }

  /**
   * One byte as `quote` (`form` false, `safe='/'`) or `quote_plus` (`form` true, `safe=''`)
   * writes it: kept, `+` for a space in form mode, or `%XX` with upper-case hex digits.
   */
  function EscapeByte(b: byte, form: bool): (escaped: string)
  {
    if AlwaysSafe(b) || (!form && b == '/' as int) then [b as char]
    else if form && b == ' ' as int then "+"
    else ['%', HexDigit(b / 16), HexDigit(b % 16)]
  }

  /** The characters an encoder can emit. */
  predicate OutputChar(c: char, form: bool)
  {
    AlwaysSafe(c as int) || c == '%' || (if form then c == '+' else c == '/')
  }

  function QuoteBytes(bs: seq<byte>, form: bool): (quoted: string)
  {
    if |bs| == 0 then "" else EscapeByte(bs[0], form) + QuoteBytes(bs[1..], form)
  }

  /** Every character an encoder writes is one it can emit. */
  lemma {:induction false} QuoteBytesOutput(bs: seq<byte>, form: bool)
    ensures forall i :: 0 <= i < |QuoteBytes(bs, form)| ==> OutputChar(QuoteBytes(bs, form)[i], form)
  {
    if |bs| > 0 {
      QuoteBytesOutput(bs[1..], form);
      var e := EscapeByte(bs[0], form);
      var rest := QuoteBytes(bs[1..], form);
      forall i | 0 <= i < |e + rest|
        ensures OutputChar((e + rest)[i], form)
      {
        if i >= |e| {
          assert (e + rest)[i] == rest[i - |e|];
        }
      }
    }
  }

  /** `urllib.parse.quote(s)`. */
  function Quote(s: string): (quoted: string)
  {
    QuoteBytes(Utf8(s), false)
  }

  /** `urllib.parse.quote_plus(s)`. */
  function QuotePlus(s: string): (quoted: string)
  {
    QuoteBytes(Utf8(s), true)
  }

  /** One `key=value` item of the query string. */
  function EncodePair(p: (string, string)): (item: string)
  {
    QuotePlus(p.0) + "=" + QuotePlus(p.1)
  }

  function EncodePairs(ps: Params): (items: seq<string>)
    ensures |items| == |ps|
  {
    if |ps| == 0 then [] else [EncodePair(ps[0])] + EncodePairs(ps[1..])
  }

  /** `urllib.parse.urlencode(params)` for string keys and values. */
  function Urlencode(ps: Params): (query: string)
  {
    Join("&", EncodePairs(ps))
  }

  /** Strict percent-decoding: the bytes a quoted text stands for, or None for a malformed one. */
  function Unquote(s: string, form: bool): (decoded: Option<seq<byte>>)
  {
    if |s| == 0 then Some([])
    else if s[0] == '%' then
      if |s| >= 3 && HexValue(s[1]).Some? && HexValue(s[2]).Some? then
        match Unquote(s[3..], form)
        case None => None
        case Some(rest) => Some([HexValue(s[1]).value * 16 + HexValue(s[2]).value] + rest)
      else None
    else if form && s[0] == '+' then
      match Unquote(s[1..], form)
      case None => None
      case Some(rest) => Some([' ' as int] + rest)
    else if s[0] as int < 0x80 then
      match Unquote(s[1..], form)
      case None => None
      case Some(rest) => Some([s[0] as int] + rest)
    else None
  }

  lemma HexRoundTrip(d: int)
    requires 0 <= d < 16
    ensures HexValue(HexDigit(d)) == Some(d)
  {
  }

  lemma UnquoteEscape(b: byte, form: bool, t: string)
    ensures Unquote(EscapeByte(b, form) + t, form)
         == (match Unquote(t, form) case None => None case Some(rest) => Some([b] + rest))
  {
    var s := EscapeByte(b, form) + t;
    if AlwaysSafe(b) || (!form && b == '/' as int) {
      assert s[1..] == t;
    } else if form && b == ' ' as int {
      assert s[1..] == t;
    } else {
      HexRoundTrip(b / 16);
      HexRoundTrip(b % 16);
      assert s[3..] == t;
    }
  }

  /** Decoding undoes `quote` and `quote_plus`, byte for byte. */
  lemma {:induction false} UnquoteQuoteBytes(bs: seq<byte>, form: bool)
    ensures Unquote(QuoteBytes(bs, form), form) == Some(bs)
  {
    if |bs| > 0 {
      UnquoteEscape(bs[0], form, QuoteBytes(bs[1..], form));
      UnquoteQuoteBytes(bs[1..], form);
      assert [bs[0]] + bs[1..] == bs;
    }
  }

  /** Reads one `key=value` item back. */
  function ParsePair(item: string): (pair: Option<(seq<byte>, seq<byte>)>)
  {
    var j := IndexOf(item, '=');
    if j == |item| then None
    else
      match (Unquote(item[..j], true), Unquote(item[j + 1..], true))
      case (Some(k), Some(v)) => Some((k, v))
      case _ => None
  }

  /** Reads a non-empty `&`-separated list of items back. */
  function ParsePairs(q: string): (pairs: Option<seq<(seq<byte>, seq<byte>)>>)
    decreases |q|
  {
    var i := IndexOf(q, '&');
    match ParsePair(q[..i])
    case None => None
    case Some(p) =>
      if i == |q| then Some([p])
      else
        match ParsePairs(q[i + 1..])
        case None => None
        case Some(ps) => Some([p] + ps)
  }

  /** Reads a query string back into its (key, value) byte strings. */
  function ParseQuery(q: string): (pairs: Option<seq<(seq<byte>, seq<byte>)>>)
  {
    if q == "" then Some([]) else ParsePairs(q)
  }

  /** The UTF-8 bytes of each key and value, in order. */
  function Utf8Pairs(ps: Params): (r: seq<(seq<byte>, seq<byte>)>)
    ensures |r| == |ps|
  {
    if |ps| == 0 then [] else [(Utf8(ps[0].0), Utf8(ps[0].1))] + Utf8Pairs(ps[1..])
  }

  /** An item whose key holds no `=` splits at the first `=`. */
  lemma ParsePairSplit(k: string, v: string)
    requires '=' !in k
    ensures ParsePair(k + "=" + v)
         == (if Unquote(k, true).Some? && Unquote(v, true).Some?
             then Some((Unquote(k, true).value, Unquote(v, true).value)) else None)
  {
    SplitAtFirst(k, '=', v);
  }

  /** One encoded item holds no `&` and reads back as its key's and value's UTF-8 bytes. */
  lemma ParseEncodedPair(p: (string, string))
    ensures '&' !in EncodePair(p)
    ensures ParsePair(EncodePair(p)) == Some((Utf8(p.0), Utf8(p.1)))
  {
    QuoteHasNoDelimiters(p.0);
    QuoteHasNoDelimiters(p.1);
    ParsePairSplit(QuotePlus(p.0), QuotePlus(p.1));
    UnquoteQuoteBytes(Utf8(p.0), true);
    UnquoteQuoteBytes(Utf8(p.1), true);
  }

  lemma ParsePairsLast(item: string)
    requires '&' !in item
    ensures ParsePairs(item) == (if ParsePair(item).Some? then Some([ParsePair(item).value]) else None)
  {
    IndexOfAbsent(item, '&');
    assert item[..|item|] == item;
  }

  lemma ParsePairsNext(item: string, rest: string)
    requires '&' !in item
    ensures ParsePairs(item + "&" + rest)
         == (if ParsePair(item).Some? && ParsePairs(rest).Some?
             then Some([ParsePair(item).value] + ParsePairs(rest).value) else None)
  {
    SplitAtFirst(item, '&', rest);
  }

  lemma {:induction false} ParsePairsUrlencode(ps: Params)
    requires |ps| > 0
    ensures ParsePairs(Urlencode(ps)) == Some(Utf8Pairs(ps))
  {
    var item := EncodePair(ps[0]);
    ParseEncodedPair(ps[0]);
    if |ps| == 1 {
      assert ps[1..] == [];
      assert EncodePairs(ps) == [item];
      assert Urlencode(ps) == item;
      assert Utf8Pairs(ps) == [(Utf8(ps[0].0), Utf8(ps[0].1))];
      ParsePairsLast(item);
    } else {
      assert EncodePairs(ps)[1..] == EncodePairs(ps[1..]);
      assert Urlencode(ps) == item + "&" + Urlencode(ps[1..]);
      ParsePairsNext(item, Urlencode(ps[1..]));
      ParsePairsUrlencode(ps[1..]);
    }
  }

  /** Reading a query string back gives each key and value, in order. */
  lemma UrlencodeRoundTrip(ps: Params)
    ensures ParseQuery(Urlencode(ps)) == Some(Utf8Pairs(ps))
  {
    if |ps| > 0 {
      ParsePairsUrlencode(ps);
      assert EncodePair(ps[0]) != "" by {
        assert '=' in EncodePair(ps[0]) by {
          assert EncodePair(ps[0])[|QuotePlus(ps[0].0)|] == '=';
        }
      }
      assert Urlencode(ps) != "" by {
        if |ps| > 1 {
          assert EncodePairs(ps)[1..] == EncodePairs(ps[1..]);
        }
      }
    }
  }

  /** Distinct parameter lists have distinct byte forms, so a parsed query identifies its parameters. */
  lemma {:induction false} Utf8PairsInjective(ps: Params, qs: Params)
    requires Utf8Pairs(ps) == Utf8Pairs(qs)
    ensures ps == qs
  {
    if |ps| > 0 {
      assert Utf8Pairs(ps)[0] == Utf8Pairs(qs)[0];
      Utf8Injective(ps[0].0, qs[0].0);
      Utf8Injective(ps[0].1, qs[0].1);
      assert Utf8Pairs(ps)[1..] == Utf8Pairs(ps[1..]);
      assert Utf8Pairs(qs)[1..] == Utf8Pairs(qs[1..]);
      Utf8PairsInjective(ps[1..], qs[1..]);
      assert ps == [ps[0]] + ps[1..];
      assert qs == [qs[0]] + qs[1..];
    }
  }

  /** Decoding undoes `quote`: the path segment is recovered as its UTF-8 bytes. */
  lemma QuoteRoundTrip(s: string)
    ensures Unquote(Quote(s), false) == Some(Utf8(s))
  {
    UnquoteQuoteBytes(Utf8(s), false);
  }

  /** Neither encoder emits a character that delimits the query (`?`, `&`, `=`, `#`). */
  lemma QuoteHasNoDelimiters(s: string)
    ensures '?' !in Quote(s) && '#' !in Quote(s)
    ensures '?' !in QuotePlus(s) && '&' !in QuotePlus(s) && '=' !in QuotePlus(s) && '#' !in QuotePlus(s)
  {
    QuoteBytesOutput(Utf8(s), false);
    QuoteBytesOutput(Utf8(s), true);
  }

  lemma QuoteExample()
    ensures Quote("a b") == "a%20b"
  {
  }

  lemma UrlencodeExample()
    ensures Urlencode([("k", "v 1")]) == "k=v+1"
  {
  }
}
