/**
 * `MessageBuilder` (raspisanie_bot/message_builder.py): a list of text parts
 * that the bot's replies are assembled from, in the MarkdownV2 formatting
 * style of the Telegram Bot API.  Plain text has the style's reserved
 * characters escaped with a backslash; code, pre-formatted blocks and link
 * targets escape only the characters those entities reserve.
 *
 * The values passed to the builder are modelled as the strings `str(value)`
 * gives; numbers go through `IntToString`.
 */
module MessageBuilder {
  import opened Text

  /** `MONTH_NAMES`, in the genitive case used after a day number. */
  const MonthNames: seq<string> := [
    "Января", "Февраля", "Марта", "Апреля", "Мая", "Июня",
    "Июля", "Августа", "Сентября", "Октября", "Ноября", "Декабря"
  ]

  /** The translation tables `QUOTE_NONE`, `QUOTE_TEXT`, `QUOTE_PRE` and `QUOTE_URL`. */
  datatype Quote = QuoteNone | QuoteText | QuotePre | QuoteUrl

  /** The characters each table puts a backslash before. */
  function Specials(q: Quote): string {
    match q
    case QuoteNone => ""
    case QuoteText => "_*[]()~`>#+-=|{}.!\\"
    case QuotePre => "`\\"
    case QuoteUrl => ")\\"
  }

  // ---------------------------------------------------------------- escaping

  /** `s.translate(quote)`: a backslash before every special character, every other character as it is. */
  function Escape(s: string, specials: string): (r: string)
    ensures |r| >= |s|
  {
    if s == [] then []
    else (if s[0] in specials then ['\\', s[0]] else [s[0]]) + Escape(s[1..], specials)
  }

  /** Reading escaped text: a backslash stands for the character after it. */
  function Unescape(r: string): string
    decreases |r|
  {
    if r == [] then []
    else if r[0] == '\\' && |r| >= 2 then [r[1]] + Unescape(r[2..])
    else [r[0]] + Unescape(r[1..])
  }

  /** Escaping works character by character. */
  lemma {:induction false} EscapeAppend(a: string, b: string, specials: string)
    ensures Escape(a + b, specials) == Escape(a, specials) + Escape(b, specials)
    decreases |a|
  {
    if a != [] {
      var h := if a[0] in specials then ['\\', a[0]] else [a[0]];
      assert (a + b)[0] == a[0] && (a + b)[1..] == a[1..] + b;
      EscapeAppend(a[1..], b, specials);
      calc {
        Escape(a + b, specials);
        h + Escape(a[1..] + b, specials);
        h + (Escape(a[1..], specials) + Escape(b, specials));
        (h + Escape(a[1..], specials)) + Escape(b, specials);
      }
    } else {
      assert a + b == b;
    }
  }

  /**
   * With the backslash among the special characters the escaping can be
   * undone: the reader gets exactly the original text back.
   */
  lemma {:induction false} UnescapeEscape(s: string, specials: string)
    requires '\\' in specials
    ensures Unescape(Escape(s, specials)) == s
    decreases |s|
  {
    if s != [] {
      UnescapeEscape(s[1..], specials);
      var t := Escape(s[1..], specials);
      if s[0] in specials {
        assert Escape(s, specials) == ['\\', s[0]] + t;
        assert (['\\', s[0]] + t)[2..] == t;
      } else {
        assert Escape(s, specials) == [s[0]] + t;
        assert ([s[0]] + t)[1..] == t;
      }
    }
  }

  /** A text is left as it is exactly when it holds no special character. */
  lemma {:induction false} EscapeUnchanged(s: string, specials: string)
    ensures Escape(s, specials) == s <==> forall i :: 0 <= i < |s| ==> s[i] !in specials
    decreases |s|
  {
    if s != [] {
      EscapeUnchanged(s[1..], specials);
      if s[0] in specials {
        assert |Escape(s, specials)| > |s|;
      } else {
        assert Escape(s, specials) == [s[0]] + Escape(s[1..], specials);
        assert forall i :: 1 <= i < |s| ==> s[i] == s[1..][i - 1];
        if Escape(s[1..], specials) != s[1..] {
          assert Escape(s, specials)[1..] == Escape(s[1..], specials);
        }
      }
    }
  }

  /** `(str(i).translate(quote) for i in value)`. */
  function EscapeEach(values: seq<string>, specials: string): (r: seq<string>)
    ensures |r| == |values| && forall k :: 0 <= k < |values| ==> r[k] == Escape(values[k], specials)
  {
    seq(|values|, k requires 0 <= k < |values| => Escape(values[k], specials))
  }

  /** `''.join(parts)`. */
  function Concat(parts: seq<string>): string {
    if parts == [] then "" else parts[0] + Concat(parts[1..])
  }

  /** Joining two lists of parts is joining their texts. */
  lemma {:induction false} ConcatAppend(a: seq<string>, b: seq<string>)
    ensures Concat(a + b) == Concat(a) + Concat(b)
    decreases |a|
  {
    if a != [] {
      assert (a + b)[0] == a[0] && (a + b)[1..] == a[1..] + b;
      ConcatAppend(a[1..], b);
      calc {
        Concat(a + b);
        a[0] + Concat(a[1..] + b);
        a[0] + (Concat(a[1..]) + Concat(b));
        (a[0] + Concat(a[1..])) + Concat(b);
      }
    } else {
      assert a + b == b;
    }
  }

  // ---------------------------------------------------------------- what each call appends

  /** The table `text` applies: the given one, or none when `escape` is false. */
  function TextSpecials(escape: bool, quote: Quote): string {
    if escape then Specials(quote) else Specials(QuoteNone)
  }

  /** The parts `_inline(char, *values)` appends: the marker alone, or the escaped values between two markers. */
  function InlineParts(marker: string, values: seq<string>, escape: bool): seq<string> {
    if values == [] then [marker]
    else [marker] + EscapeEach(values, TextSpecials(escape, if marker == "`" then QuotePre else QuoteText)) + [marker]
  }

  /** `str(time // 60)`, `':'` and `format(time % 60, "02")`. */
  function TimeParts(time: int): (r: seq<string>)
    ensures |r| == 3 && r[1] == ":" && |r[2]| == 2 && IsInt(r[2])
  {
    var m := time % 60;
    [IntToString(time / 60), ":", [DigitChar(m / 10), DigitChar(m % 10)]]
  }

  /** The rendered time reads back as the number of minutes: hours times sixty plus the two-digit minutes. */
  lemma TimePartsValue(time: nat)
    ensures var r := TimeParts(time);
      IsInt(r[0]) && DigitsValue(r[0]) * 60 + DigitsValue(r[2]) == time && DigitsValue(r[2]) < 60
  {
    var r := TimeParts(time);
    var m := time % 60;
    NatToStringRoundTrip(time / 60);
    var hi, lo := DigitChar(m / 10), DigitChar(m % 10);
    assert r[2] == [hi, lo];
    assert [hi, lo][..1] == [hi] && [hi][..0] == [];
    assert DigitsValue([hi]) == m / 10;
    assert DigitsValue(r[2]) == (m / 10) * 10 + m % 10;
  }

  /** `str(date.day)`, `" "` and the month's name. */
  function DateParts(day: int, month: int): (r: seq<string>)
    requires 1 <= month <= 12
    ensures |r| == 3 && r[1] == " " && r[2] in MonthNames
  {
    [IntToString(day), " ", MonthNames[month - 1]]
  }

  // ---------------------------------------------------------------- the builder

  class Builder {
    /** `_parts`. */
    var parts: seq<string>

    constructor ()
      ensures parts == []
    {
      parts := [];
    }

    /** `__str__`: the parts in the order they were appended. */
    function ToString(): string
      reads this
    {
      Concat(parts)
    }

    /** `empty`. */
    predicate Empty()
      reads this
    {
      parts == []
    }

    /** `raw(*value)`: the values as they are. */
    method Raw(values: seq<string>)
      modifies this
      ensures parts == old(parts) + values
      ensures ToString() == old(ToString()) + Concat(values)
    {
      ConcatAppend(parts, values);
      parts := parts + values;
    }

    /** `nl()`. */
    method Nl()
      modifies this
      ensures parts == old(parts) + ["\n"]
      ensures ToString() == old(ToString()) + "\n"
    {
      Raw(["\n"]);
    }

    /** `text(*value, escape, quote)`: each value translated by `quote`, or as it is when `escape` is false. */
    method Text(values: seq<string>, escape: bool, quote: Quote)
      modifies this
      ensures parts == old(parts) + EscapeEach(values, TextSpecials(escape, quote))
      ensures !escape ==> parts == old(parts) + values
    {
      var translated := EscapeEach(values, TextSpecials(escape, quote));
      if !escape {
        forall k | 0 <= k < |values|
          ensures translated[k] == values[k]
        {
          EscapeUnchanged(values[k], "");
        }
      }
      Raw(translated);
    }

    /** `or_text(*value, ...)`: the text only when nothing was appended yet. */
    method OrText(values: seq<string>, escape: bool, quote: Quote)
      modifies this
      ensures old(parts) == [] ==> parts == EscapeEach(values, TextSpecials(escape, quote))
      ensures old(parts) != [] ==> parts == old(parts)
    {
      if Empty() {
        Text(values, escape, quote);
      }
    }

    /** `_inline(char, *value, escape)`: the marker of `bold`, `italic`, `underline`, `strikethrough` or `code`. */
    method Inline(marker: string, values: seq<string>, escape: bool)
      modifies this
      ensures parts == old(parts) + InlineParts(marker, values, escape)
    {
      if values == [] {
        Raw([marker]);
      } else {
        var quote := if marker == "`" then QuotePre else QuoteText;
        Raw([marker] + EscapeEach(values, TextSpecials(escape, quote)) + [marker]);
      }
    }

    /** `bold`, `italic`, `underline`, `strikethrough` and `code`: `_inline` with their markers. */
    method Bold(values: seq<string>, escape: bool)
      modifies this
      ensures parts == old(parts) + InlineParts("*", values, escape)
    {
      Inline("*", values, escape);
    }

    method Italic(values: seq<string>, escape: bool)
      modifies this
      ensures parts == old(parts) + InlineParts("_", values, escape)
    {
      Inline("_", values, escape);
    }

    method Underline(values: seq<string>, escape: bool)
      modifies this
      ensures parts == old(parts) + InlineParts("__", values, escape)
    {
      Inline("__", values, escape);
    }

    method Strikethrough(values: seq<string>, escape: bool)
      modifies this
      ensures parts == old(parts) + InlineParts("~", values, escape)
    {
      Inline("~", values, escape);
    }

    /** Code escapes only `` ` `` and `\`, whatever else the text holds. */
    method Code(values: seq<string>, escape: bool)
      modifies this
      ensures parts == old(parts) + InlineParts("`", values, escape)
      ensures escape && values != [] ==> parts == old(parts) + ["`"] + EscapeEach(values, Specials(QuotePre)) + ["`"]
    {
      Inline("`", values, escape);
    }

    /** `link(value, link)`: the label as it is, the target with `)` and `\` escaped. */
    method Link(value: string, link: string)
      modifies this
      ensures parts == old(parts) + ["[", value, "]("] + [Escape(link, Specials(QuoteUrl))] + [")"]
    {
      Raw(["[", value, "]("]);
      Text([link], true, QuoteUrl);
      Raw([")"]);
    }

    /** `pre(*value, language)`: a fenced block whose text has `` ` `` and `\` escaped. */
    method Pre(values: seq<string>, language: string)
      modifies this
      ensures parts == old(parts) + ["```", language, "\n"] + EscapeEach(values, Specials(QuotePre)) + ["\n```"]
    {
      Raw(["```", language, "\n"]);
      Text(values, true, QuotePre);
      Raw(["\n```"]);
    }

    /** `date(date)`: the day and the month's name, escaped as text. */
    method Date(day: int, month: int)
      requires 1 <= month <= 12
      modifies this
      ensures parts == old(parts) + EscapeEach(DateParts(day, month), Specials(QuoteText))
    {
      Text(DateParts(day, month), true, QuoteText);
    }

    /** `time(time)`: hours, a colon and two-digit minutes, escaped as text. */
    method Time(time: int)
      modifies this
      ensures parts == old(parts) + EscapeEach(TimeParts(time), Specials(QuoteText))
    {
      Text(TimeParts(time), true, QuoteText);
    }
  }
}
