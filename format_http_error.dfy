/**
 * `format_http_error_for_logging`: the one-string summary of an HTTP error response that
 * the client logs. The JSON decoding of the response body is an input (`ErrorBody`).
 */
module FormatHttpError {
  import opened Wrappers
  import opened Text

  /** The value listed under one field: strings (what `', '.join` accepts) or anything else. */
  datatype ErrorList = Texts(items: seq<string>) | NonText

  /** The value of a `fields` key: an object (its items in order) or any other JSON value. */
  datatype FieldsValue = FieldMap(entries: seq<(string, ErrorList)>) | NotMap

  /**
   * The decoded response body. For an object, each member the function reads is None when
   * its key is missing, and otherwise Python's `str()` of the value.
   */
  datatype ErrorBody =
    | Unparsable
    | NotObject
    | Object(status: Option<string>, title: Option<string>, detail: Option<string>, fields: Option<FieldsValue>)

  /** The returned message, or the `TypeError` that `', '.join` raises and the function does not catch. */
  datatype Formatted = Message(text: string) | Raises

  const ParseFailurePrefix := "Failed to parse error response. Raw text: "
  const UnexpectedPrefix := "Unexpected error structure. Error: "
  const DetailLabel := "Detail:"
  const FieldErrorsHeading := "Field Errors:"

  /** First line: `HTTP Error <status>: <title>`. */
  function Headline(status: Option<string>, title: Option<string>): (line: string)
  {
    "HTTP Error " + status.GetOr("N/A") + ": " + title.GetOr("Unknown Error")
  }

  /** Second line: `Detail: <detail>`. */
  function DetailLine(detail: Option<string>): (line: string)
  {
    DetailLabel + " " + detail.GetOr("No details provided")
  }

  /** One line of the field section: `  <field>: <e1>, <e2>, …`. */
  function FieldLine(field: string, errors: seq<string>): (line: string)
  {
    "  " + field + ": " + Join(", ", errors) + "\n"
  }

  /** The field section's lines in order, or None when some field's errors are not all strings. */
  function FieldLines(entries: seq<(string, ErrorList)>): (section: Option<string>)
  {
    if |entries| == 0 then Some("")
    else
      var last := entries[|entries| - 1];
      match FieldLines(entries[..|entries| - 1])
      case None => None
      case Some(lines) =>
        match last.1
        case NonText => None
        case Texts(items) => Some(lines + FieldLine(last.0, items))
  }

  /** The field section of a split list is the sections of its parts, one after the other. */
  lemma {:induction false} FieldLinesAppend(a: seq<(string, ErrorList)>, b: seq<(string, ErrorList)>)
    ensures FieldLines(a + b)
         == if FieldLines(a).Some? && FieldLines(b).Some? then Some(FieldLines(a).value + FieldLines(b).value) else None
  {
    if |b| == 0 {
      assert a + b == a;
      if FieldLines(a).Some? {
        assert FieldLines(a).value + "" == FieldLines(a).value;
      }
    } else {
      var b' := b[..|b| - 1];
      var last := b[|b| - 1];
      assert (a + b)[..|a + b| - 1] == a + b';
      assert (a + b)[|a + b| - 1] == last;
      FieldLinesAppend(a, b');
      if FieldLines(a).Some? && FieldLines(b').Some? && last.1.Texts? {
        var la, lb := FieldLines(a).value, FieldLines(b').value;
        assert FieldLines(b) == Some(lb + FieldLine(last.0, last.1.items));
        assert FieldLines(a + b) == Some((la + lb) + FieldLine(last.0, last.1.items));
        assert (la + lb) + FieldLine(last.0, last.1.items) == la + (lb + FieldLine(last.0, last.1.items));
      }
    }
  }

  /** The message for an object body, before and after `strip()`; `lines` is the field section if there is one. */
  function ObjectText(headline: string, detail: Option<string>, lines: Option<string>): (text: string)
  {
    var msg := headline + "\n" + DetailLine(detail) + "\n";
    Strip(if lines.Some? then msg + FieldErrorsHeading + "\n" + lines.value else msg)
  }

  /** What the function returns for each decoded body; `rawText` is the body, `errorText` is `str(http_error)`. */
  function ErrorMessage(body: ErrorBody, rawText: string, errorText: string): (r: Formatted)
    ensures body.Unparsable? ==> r == Message(ParseFailurePrefix + rawText)
    ensures body.NotObject? ==> r == Message(UnexpectedPrefix + errorText)
  {
    match body
    case Unparsable => Message(ParseFailurePrefix + rawText)
    case NotObject => Message(UnexpectedPrefix + errorText)
    case Object(status, title, detail, fields) =>
      var headline := Headline(status, title);
      match fields
      case None => Message(ObjectText(headline, detail, None))
      case Some(NotMap) => Message(UnexpectedPrefix + errorText)
      case Some(FieldMap(entries)) =>
        match FieldLines(entries)
        case None => Raises
        case Some(lines) => Message(ObjectText(headline, detail, Some(lines)))
  }

  /** The `for` loop over `fields.items()`: appends one line per field to `msg`, or stops where `join` raises. */
  method AppendFieldLines(msg: string, entries: seq<(string, ErrorList)>) returns (r: Option<string>)
    ensures r == if FieldLines(entries).Some? then Some(msg + FieldLines(entries).value) else None
  {
    var out := msg;
    for i := 0 to |entries|
      invariant FieldLines(entries[..i]).Some?
      invariant out == msg + FieldLines(entries[..i]).value
    {
      var (field, errors) := entries[i];
      assert entries[..i + 1][..i] == entries[..i];
      match errors {
        case NonText =>
          FieldLinesAppend(entries[..i + 1], entries[i + 1..]);
          assert entries[..i + 1] + entries[i + 1..] == entries;
          return None;
        case Texts(items) =>
          out := out + "  " + field + ": " + Join(", ", items) + "\n";
      }
    }
    assert entries[..|entries|] == entries;
    return Some(out);
  }

  /** `format_http_error_for_logging`, building the message line by line. */
  method FormatForLogging(body: ErrorBody, rawText: string, errorText: string) returns (r: Formatted)
    ensures r == ErrorMessage(body, rawText, errorText)
  {
    match body {
      case Unparsable =>
        return Message(ParseFailurePrefix + rawText);
      case NotObject =>
        return Message(UnexpectedPrefix + errorText);
      case Object(status, title, detail, fields) =>
        var msg := Headline(status, title) + "\n";
        msg := msg + DetailLine(detail) + "\n";
        if fields.Some? {
          msg := msg + FieldErrorsHeading + "\n";
          match fields.value {
            case NotMap =>
              return Message(UnexpectedPrefix + errorText);
            case FieldMap(entries) =>
              var withFields := AppendFieldLines(msg, entries);
              if withFields.None? {
                return Raises;
              }
              msg := withFields.value;
          }
        }
        return Message(Strip(msg));
    }
  }

  /** Without a field section, the message is the headline and the detail line with its trailing whitespace removed. */
  lemma DetailOnlyShape(headline: string, detail: Option<string>)
    requires |headline| > 0 && headline[0] == 'H'
    ensures ObjectText(headline, detail, None)
            == headline + "\n" + DetailLabel + RStrip(" " + detail.GetOr("No details provided") + "\n")
  {
    var d := detail.GetOr("No details provided");
    var pre := headline + "\n" + DetailLabel;
    FirstOf(headline, "\n");
    Regroup(headline, "\n", DetailLabel, " ", d, "\n");
    FirstOf(headline + "\n", DetailLabel);
    LastOf(headline + "\n", DetailLabel);
    StripAfter(pre, " " + d + "\n");
  }

  /**
   * With a field section, the headline and the detail line are kept whole, the
   * `Field Errors:` heading follows, and only the field lines' trailing whitespace goes.
   */
  lemma WithFieldsShape(headline: string, detail: Option<string>, lines: string)
    requires |headline| > 0 && headline[0] == 'H'
    ensures ObjectText(headline, detail, Some(lines))
            == headline + "\n" + DetailLine(detail) + "\n" + FieldErrorsHeading + RStrip("\n" + lines)
  {
    var msg := headline + "\n" + DetailLine(detail) + "\n";
    FirstOf(headline, "\n");
    FirstOf(headline + "\n", DetailLine(detail));
    FirstOf(headline + "\n" + DetailLine(detail), "\n");
    FirstOf(msg, FieldErrorsHeading);
    LastOf(msg, FieldErrorsHeading);
    StripAfter(msg + FieldErrorsHeading, "\n" + lines);
    Associate(msg + FieldErrorsHeading, "\n", lines);
  }

  /**
   * Regrouping the detail line so that its label ends the first part.
   * A solver aid: stated over plain variables, so a call site gets it without regrouping concatenations.
   */
  lemma Regroup(a: string, n: string, lab: string, sp: string, d: string, m: string)
    ensures a + n + (lab + sp + d) + m == (a + n + lab) + (sp + d + m)
  {
  }

  /**
   * The first character of a concatenation.
   * A solver aid: stated over plain variables, so a call site gets it without regrouping concatenations.
   */
  lemma FirstOf(a: string, b: string)
    requires |a| > 0
    ensures (a + b)[0] == a[0]
  {
  }

  /**
   * The last character of a concatenation.
   * A solver aid: stated over plain variables, so a call site gets it without regrouping concatenations.
   */
  lemma LastOf(a: string, b: string)
    requires |b| > 0
    ensures (a + b)[|a + b| - 1] == b[|b| - 1]
  {
  }

  /**
   * For an object body, the message is the headline, the detail line (trailing whitespace
   * removed when nothing follows it) and, exactly when the body has a `fields` key, the
   * `Field Errors:` heading followed by the field lines.
   */
  lemma FieldSection(status: Option<string>, title: Option<string>, detail: Option<string>, fields: Option<FieldsValue>,
                     rawText: string, errorText: string)
    requires fields.None? || (fields.value.FieldMap? && FieldLines(fields.value.entries).Some?)
    ensures var t := ErrorMessage(Object(status, title, detail, fields), rawText, errorText).text;
            var d := detail.GetOr("No details provided");
            && (fields.None? ==>
                  t == Headline(status, title) + "\n" + DetailLabel + RStrip(" " + d + "\n"))
            && (fields.Some? ==>
                  t == Headline(status, title) + "\n" + DetailLine(detail) + "\n" + FieldErrorsHeading
                       + RStrip("\n" + FieldLines(fields.value.entries).value))
  {
    HeadlineStart(status, title);
    if fields.None? {
      DetailOnlyShape(Headline(status, title), detail);
    } else {
      WithFieldsShape(Headline(status, title), detail, FieldLines(fields.value.entries).value);
    }
  }

  /** The headline starts with `H`, which is not whitespace. */
  lemma HeadlineStart(status: Option<string>, title: Option<string>)
    ensures |Headline(status, title)| > 0 && Headline(status, title)[0] == 'H'
  {
  }

  /** The message for an object body opens with the headline and the `Detail:` label. */
  lemma ObjectTextOpening(headline: string, detail: Option<string>, lines: Option<string>)
    requires |headline| > 0 && headline[0] == 'H'
    ensures StartsWith(ObjectText(headline, detail, lines), headline + "\n" + DetailLabel)
  {
    if lines.None? {
      DetailOnlyShape(headline, detail);
    } else {
      WithFieldsOpening(headline, detail, lines.value);
    }
  }

  lemma WithFieldsOpening(headline: string, detail: Option<string>, lines: string)
    requires |headline| > 0 && headline[0] == 'H'
    ensures StartsWith(ObjectText(headline, detail, Some(lines)), headline + "\n" + DetailLabel)
  {
    WithFieldsShape(headline, detail, lines);
    OpeningOf(headline, "\n", DetailLine(detail), DetailLabel, " ", detail.GetOr("No details provided"),
              "\n", FieldErrorsHeading, RStrip("\n" + lines));
  }

  /** The message for an object body is not empty and has no surrounding whitespace. */
  lemma ObjectTextTrimmed(headline: string, detail: Option<string>, lines: Option<string>)
    requires |headline| > 0 && headline[0] == 'H'
    ensures Trimmed(ObjectText(headline, detail, lines))
  {
    if lines.None? {
      DetailOnlyShape(headline, detail);
    } else {
      WithFieldsShape(headline, detail, lines.value);
    }
  }

  /** For an object body, the message opens with the headline and the `Detail:` label. */
  lemma HeadlineKept(status: Option<string>, title: Option<string>, detail: Option<string>, fields: Option<FieldsValue>,
                     rawText: string, errorText: string)
    requires fields.None? || (fields.value.FieldMap? && FieldLines(fields.value.entries).Some?)
    ensures var t := ErrorMessage(Object(status, title, detail, fields), rawText, errorText).text;
            StartsWith(t, Headline(status, title) + "\n" + DetailLabel)
  {
    HeadlineStart(status, title);
    var lines := if fields.None? then None else FieldLines(fields.value.entries);
    ObjectTextOpening(Headline(status, title), detail, lines);
  }

  /**
   * A prefix of the detail line, after the same head, is a prefix of the whole text.
   * A solver aid: stated over plain variables, so a call site gets it without regrouping concatenations.
   */
  lemma OpeningOf(h: string, n: string, dl: string, lab: string, sp: string, d: string, m: string, f: string, r: string)
    requires dl == lab + sp + d
    ensures StartsWith(h + n + dl + m + f + r, h + n + lab)
  {
    assert h + n + dl + m + f + r == h + n + lab + (sp + d + m + f + r);
  }

  /** For an object body the message has no leading or trailing whitespace. */
  lemma NoSurroundingWhitespace(status: Option<string>, title: Option<string>, detail: Option<string>,
                                fields: Option<FieldsValue>, rawText: string, errorText: string)
    requires fields.None? || (fields.value.FieldMap? && FieldLines(fields.value.entries).Some?)
    ensures Trimmed(ErrorMessage(Object(status, title, detail, fields), rawText, errorText).text)
  {
    HeadlineStart(status, title);
    var lines := if fields.None? then None else FieldLines(fields.value.entries);
    var m := ErrorMessage(Object(status, title, detail, fields), rawText, errorText);
    ObjectMessage(status, title, detail, fields, rawText, errorText);
    ObjectTextTrimmed(Headline(status, title), detail, lines);
    assert m.text == ObjectText(Headline(status, title), detail, lines);
  }

  /** The message for an object body without a failing field section is `ObjectText`'s. */
  lemma ObjectMessage(status: Option<string>, title: Option<string>, detail: Option<string>,
                      fields: Option<FieldsValue>, rawText: string, errorText: string)
    requires fields.None? || (fields.value.FieldMap? && FieldLines(fields.value.entries).Some?)
    ensures var lines := if fields.None? then None else FieldLines(fields.value.entries);
            ErrorMessage(Object(status, title, detail, fields), rawText, errorText)
            == Message(ObjectText(Headline(status, title), detail, lines))
  {
  }

  /** The field section fails exactly when some field's value is not a list of strings. */
  lemma {:induction false} FieldLinesFail(entries: seq<(string, ErrorList)>)
    ensures FieldLines(entries).None? <==> exists i :: 0 <= i < |entries| && entries[i].1.NonText?
  {
    if |entries| > 0 {
      var init := entries[..|entries| - 1];
      FieldLinesFail(init);
      if FieldLines(init).None? {
        var i :| 0 <= i < |init| && init[i].1.NonText?;
        assert entries[i] == init[i];
      } else {
        forall i | 0 <= i < |entries| - 1
          ensures !entries[i].1.NonText?
        {
          assert entries[i] == init[i];
        }
      }
    }
  }

  /**
   * The function raises exactly for an object body whose `fields` is an object with a
   * value that is not a list of strings; every other body gives a message.
   */
  lemma RaisesExactly(body: ErrorBody, rawText: string, errorText: string)
    ensures ErrorMessage(body, rawText, errorText).Raises?
            <==> (body.Object? && body.fields.Some? && body.fields.value.FieldMap?
                  && exists i :: 0 <= i < |body.fields.value.entries| && body.fields.value.entries[i].1.NonText?)
  {
    if body.Object? && body.fields.Some? && body.fields.value.FieldMap? {
      FieldLinesFail(body.fields.value.entries);
    }
  }
}
