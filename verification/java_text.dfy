/** The pieces of Java's standard library the analyzer's text handling relies
    on, written out: `String.valueOf` on a possibly-null reference,
    `Integer.toString`, the `%s` subset of `String.format`, and `long`
    division, which truncates toward zero. */
module JavaText {
  import opened Options

  /** A Java `String` reference that may be null. */
  type Nullable = Option<string>

  /** `String.valueOf(Object)` / `StringBuilder.append(Object)` on a string
      reference: the text itself, or the four letters `null`. */
  function Show(v: Nullable): (r: string)
    ensures v.Some? ==> r == v.value
    ensures v.None? ==> r == "null"
  {
    match v
    case Some(s) => s
    case None => "null"
  }

  function DigitChar(d: nat): char
    requires d < 10
  {
    ['0', '1', '2', '3', '4', '5', '6', '7', '8', '9'][d]
  }

  function DigitValue(c: char): nat
    requires '0' <= c <= '9'
  {
    (c as int) - ('0' as int)
  }

  /** `Integer.toString` of a non-negative count: its decimal digits, most
      significant first, without leading zeros. */
  function Decimal(n: nat): (r: string)
    ensures |r| > 0
    ensures forall i :: 0 <= i < |r| ==> '0' <= r[i] <= '9'
    ensures n > 0 ==> r[0] != '0'
    decreases n
  {
    if n < 10 then [DigitChar(n)] else Decimal(n / 10) + [DigitChar(n % 10)]
  }

  /** Reads a string of decimal digits back as a number. */
  function ParseDecimal(s: string): nat
    requires forall i :: 0 <= i < |s| ==> '0' <= s[i] <= '9'
    decreases |s|
  {
    if |s| == 0 then 0 else 10 * ParseDecimal(s[..|s| - 1]) + DigitValue(s[|s| - 1])
  }

  /** The decimal rendering loses nothing: reading it back gives the count. */
  lemma {:induction false} DecimalRoundTrip(n: nat)
    ensures ParseDecimal(Decimal(n)) == n
    decreases n
  {
    if n >= 10 {
      DecimalRoundTrip(n / 10);
      var r := Decimal(n);
      assert r[..|r| - 1] == Decimal(n / 10);
    }
  }

  /** The outcome of `String.format`: the text, or the exception it throws. */
  datatype Formatted = Text(text: string) | MissingArgument | Unmodelled {

    /** `prefix` written in front of a successful result. */
    function After(prefix: string): (r: Formatted)
      ensures Text? <==> r.Text?
      ensures Text? ==> r.text == prefix + text
    {
      match this
      case Text(t) => Text(prefix + t)
      case _ => this
    }
  }

  /** `String.format` for the directives a template of `%s` fields needs:
      ordinary characters are copied, `%s` copies the next argument unchanged,
      `%%` writes one percent sign, and running out of arguments is Java's
      MissingFormatArgumentException. Any other directive is outside this
      model. Arguments are already the `String.valueOf` of the Java values. */
  function Format(fmt: string, args: seq<string>): Formatted
    decreases |fmt|
  {
    if |fmt| == 0 then Text("")
    else if fmt[0] != '%' then Format(fmt[1..], args).After([fmt[0]])
    else if |fmt| == 1 then Unmodelled
    else if fmt[1] == '%' then Format(fmt[2..], args).After("%")
    else if fmt[1] != 's' then Unmodelled
    else if |args| == 0 then MissingArgument
    else Format(fmt[2..], args[1..]).After(args[0])
  }

  /** Fixed text around `%s` fields: `chunks[0] %s chunks[1] %s ... chunks[n]`. */
  function Interleave(chunks: seq<string>): string
    requires |chunks| > 0
    decreases |chunks|
  {
    if |chunks| == 1 then chunks[0] else chunks[0] + "%s" + Interleave(chunks[1..])
  }

  /** The same fixed text with each field replaced by its value. */
  function Weave(chunks: seq<string>, args: seq<string>): string
    requires |chunks| == |args| + 1
    decreases |args|
  {
    if |args| == 0 then chunks[0] else chunks[0] + args[0] + Weave(chunks[1..], args[1..])
  }

  predicate PercentFree(s: string) {
    forall i :: 0 <= i < |s| ==> s[i] != '%'
  }

  lemma PercentFreeAppend(a: string, b: string)
    requires PercentFree(a) && PercentFree(b)
    ensures PercentFree(a + b)
  {
    assert forall i :: |a| <= i < |a + b| ==> (a + b)[i] == b[i - |a|];
  }

  /** The pieces from index `from` on, written one after another. */
  function Joined(pieces: seq<string>, from: nat): (r: string)
    ensures from >= |pieces| ==> r == ""
    decreases |pieces| - from
  {
    if from >= |pieces| then "" else pieces[from] + Joined(pieces, from + 1)
  }

  lemma {:induction false} JoinedPlain(pieces: seq<string>, from: nat)
    requires forall k :: 0 <= k < |pieces| ==> PercentFree(pieces[k])
    ensures PercentFree(Joined(pieces, from))
    decreases |pieces| - from
  {
    if from < |pieces| {
      JoinedPlain(pieces, from + 1);
      PercentFreeAppend(pieces[from], Joined(pieces, from + 1));
    }
  }

  /** Text without a percent sign is copied through unchanged. */
  lemma {:induction false} FormatPlain(c: string, rest: string, args: seq<string>)
    requires PercentFree(c)
    ensures Format(c + rest, args) == Format(rest, args).After(c)
    decreases |c|
  {
    if |c| > 0 {
      assert (c + rest)[0] == c[0];
      assert (c + rest)[1..] == c[1..] + rest;
      FormatPlain(c[1..], rest, args);
      assert [c[0]] + c[1..] == c;
    } else {
      assert c + rest == rest;
    }
  }

  /** Formatting a template whose fixed text holds no percent sign inserts
      every argument verbatim in its slot: whatever an argument contains,
      `%s` included, is never read as a directive. */
  lemma {:induction false} FormatFields(chunks: seq<string>, args: seq<string>)
    requires |chunks| == |args| + 1
    requires forall k :: 0 <= k < |chunks| ==> PercentFree(chunks[k])
    ensures Format(Interleave(chunks), args) == Text(Weave(chunks, args))
    decreases |args|
  {
    if |args| == 0 {
      FormatPlain(chunks[0], "", args);
      assert chunks[0] + "" == chunks[0];
    } else {
      var tail := Interleave(chunks[1..]);
      assert Interleave(chunks) == chunks[0] + ("%s" + tail);
      FormatPlain(chunks[0], "%s" + tail, args);
      assert ("%s" + tail)[2..] == tail;
      FormatFields(chunks[1..], args[1..]);
    }
  }

  /** Splitting the woven text after field `k`: everything before it, the
      field's value, and everything after it. */
  lemma {:induction false} WeaveSplit(chunks: seq<string>, args: seq<string>, k: nat)
    requires |chunks| == |args| + 1 && k < |args|
    ensures Weave(chunks, args) == Weave(chunks[..k + 1], args[..k]) + args[k] + Weave(chunks[k + 1..], args[k + 1..])
    decreases k
  {
    if k > 0 {
      WeaveSplit(chunks[1..], args[1..], k - 1);
      assert chunks[1..][..k] == chunks[1..k + 1];
      assert args[1..][..k - 1] == args[1..k];
      assert chunks[1..][k..] == chunks[k + 1..];
      assert args[1..][k..] == args[k + 1..];
      assert chunks[..k + 1][1..] == chunks[1..k + 1];
      assert args[..k][1..] == args[1..k];
    } else {
      assert chunks[..1][1..] == [];
    }
  }

  /** Woven text always ends with the last fixed chunk. */
  lemma {:induction false} WeaveEndsWithChunk(chunks: seq<string>, args: seq<string>)
    requires |chunks| == |args| + 1
    ensures |Weave(chunks, args)| >= |chunks[|args|]|
    ensures Weave(chunks, args)[|Weave(chunks, args)| - |chunks[|args|]|..] == chunks[|args|]
    decreases |args|
  {
    if |args| > 0 {
      WeaveEndsWithChunk(chunks[1..], args[1..]);
    }
  }

  predicate EndsWith(s: string, suffix: string) {
    |suffix| <= |s| && s[|s| - |suffix|..] == suffix
  }

  /** Where field `k`'s value starts in the woven text. */
  function FieldStart(chunks: seq<string>, args: seq<string>, k: nat): nat
    requires |chunks| == |args| + 1 && k < |args|
  {
    |Weave(chunks[..k + 1], args[..k])|
  }

  /** In text `w` woven from `chunks` and `args`: `tag` ends exactly where
      field `k`'s value starts, the value follows verbatim, and the next
      field starts once the value and the whole next chunk have passed. */
  ghost predicate Slot(w: string, chunks: seq<string>, args: seq<string>, k: nat, tag: string)
    requires |chunks| == |args| + 1 && k < |args|
  {
    var o := FieldStart(chunks, args, k);
    && |tag| <= o && o + |args[k]| <= |w|
    && w[o - |tag|..o] == tag
    && w[o..o + |args[k]|] == args[k]
    && (k + 1 < |args| ==> FieldStart(chunks, args, k + 1) == o + |args[k]| + |chunks[k + 1]|)
  }

  /** When fixed chunk `k` ends with `tag`, the woven text has field `k` laid
      out after that tag. */
  lemma WeaveLayout(chunks: seq<string>, args: seq<string>, k: nat, tag: string)
    requires |chunks| == |args| + 1 && k < |args|
    requires EndsWith(chunks[k], tag)
    ensures Slot(Weave(chunks, args), chunks, args, k, tag)
  {
    FieldAfterTag(chunks, args, k, tag);
    if k + 1 < |args| {
      NextFieldStart(chunks, args, k);
    }
  }

  /** The tag and the value of field `k` in place. */
  lemma FieldAfterTag(chunks: seq<string>, args: seq<string>, k: nat, tag: string)
    requires |chunks| == |args| + 1 && k < |args|
    requires EndsWith(chunks[k], tag)
    ensures var w := Weave(chunks, args);
            var o := FieldStart(chunks, args, k);
            && |tag| <= o && o + |args[k]| <= |w|
            && w[o - |tag|..o] == tag
            && w[o..o + |args[k]|] == args[k]
  {
    var w := Weave(chunks, args);
    var head := Weave(chunks[..k + 1], args[..k]);
    WeaveSplit(chunks, args, k);
    WeaveEndsWithChunk(chunks[..k + 1], args[..k]);
    assert chunks[..k + 1][k] == chunks[k];
    assert EndsWith(head, tag) by {
      assert head[|head| - |chunks[k]|..] == chunks[k];
      assert head[|head| - |tag|..] == chunks[k][|chunks[k]| - |tag|..];
    }
    assert w[..|head|] == head;
    assert w[|head| - |tag|..|head|] == head[|head| - |tag|..];
    assert w[|head|..|head| + |args[k]|] == args[k];
  }

  /** Field `k + 1` starts after field `k`'s value and the chunk between. */
  lemma NextFieldStart(chunks: seq<string>, args: seq<string>, k: nat)
    requires |chunks| == |args| + 1 && k + 1 < |args|
    ensures FieldStart(chunks, args, k + 1) == FieldStart(chunks, args, k) + |args[k]| + |chunks[k + 1]|
  {
    WeaveSplit(chunks[..k + 2], args[..k + 1], k);
    assert chunks[..k + 2][..k + 1] == chunks[..k + 1];
    assert args[..k + 1][..k] == args[..k];
    assert chunks[..k + 2][k + 1..] == [chunks[k + 1]];
    assert args[..k + 1][k + 1..] == [];
    assert args[..k + 1][k] == args[k];
  }

  lemma EndsWithPrefix(prefix: string, s: string, suffix: string)
    requires EndsWith(s, suffix)
    ensures EndsWith(prefix + s, suffix)
  {
    assert (prefix + s)[|prefix + s| - |suffix|..] == s[|s| - |suffix|..];
  }

  lemma EndsWithAppend(s: string, suffix: string, more: string)
    requires EndsWith(s, suffix)
    ensures EndsWith(s + more, suffix + more)
  {
    assert (s + more)[|s + more| - |suffix + more|..] == s[|s| - |suffix|..] + more;
  }

  /** Woven text whose last field is empty ends with the last two chunks
      back to back. */
  lemma WeaveEmptyLast(chunks: seq<string>, args: seq<string>)
    requires |chunks| == |args| + 1 && |args| > 0 && args[|args| - 1] == ""
    ensures EndsWith(Weave(chunks, args), chunks[|args| - 1] + chunks[|args|])
  {
    var k := |args| - 1;
    var head := Weave(chunks[..k + 1], args[..k]);
    assert EndsWith(head, chunks[k]) by {
      WeaveEndsWithChunk(chunks[..k + 1], args[..k]);
      assert chunks[..k + 1][k] == chunks[k];
    }
    assert Weave(chunks, args) == head + chunks[k + 1] by {
      WeaveSplit(chunks, args, k);
      assert Weave(chunks[k + 1..], args[k + 1..]) == chunks[k + 1] by {
        assert args[k + 1..] == [];
        assert chunks[k + 1..][0] == chunks[k + 1];
      }
      assert head + args[k] == head;
    }
    EndsWithAppend(head, chunks[k], chunks[k + 1]);
  }

  /** Java's `long` division by a positive divisor: the quotient truncated
      toward zero (Dafny's `/` would round negative operands down). */
  function TruncDiv(a: int, b: int): (q: int)
    requires b > 0
    ensures a >= 0 ==> q * b <= a < (q + 1) * b
    ensures a < 0 ==> (q - 1) * b < a <= q * b
  {
    if a >= 0 then a / b else -((-a) / b)
  }

  lemma MulCancel(x: int, y: int, b: int)
    requires b > 0 && x * b < y * b
    ensures x < y
  {
  }

  /** Truncating division by a positive divisor preserves order. */
  lemma TruncDivMonotone(a: int, c: int, b: int)
    requires b > 0 && a <= c
    ensures TruncDiv(a, b) <= TruncDiv(c, b)
  {
    var qa, qc := TruncDiv(a, b), TruncDiv(c, b);
    if a >= 0 || c < 0 {
      // qa * b <= a <= c < (qc + 1) * b in the first case, and
      // (qa - 1) * b < a <= c <= qc * b in the second.
      if a >= 0 {
        MulCancel(qa, qc + 1, b);
      } else {
        MulCancel(qa - 1, qc, b);
      }
    } else {
      assert qa <= 0 by { MulCancel(qa - 1, 0, b); }
      assert qc >= 0 by { MulCancel(-1, qc, b); }
    }
  }
}
