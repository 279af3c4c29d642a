/** A bounded buffer of process output. It keeps the first and last characters of all that
    was appended since the last drain, and drains them within a limit. */
module HeadTailBuffer {

  function TakeHead(s: string, count: int): string {
    if count <= 0 then "" else if count <= |s| then s[..count] else s
  }

  function TakeTail(s: string, count: int): string {
    if count <= 0 then "" else if count <= |s| then s[|s| - count..] else s
  }

  /** ceil(n / 2) and floor(n / 2). */
  function HeadBudget(n: nat): nat {
    n - n / 2
  }

  function TailBudget(n: nat): nat {
    n / 2
  }

  function Digit(n: nat): char
    requires n < 10
  {
    "0123456789"[n]
  }

  function Decimal(n: nat): string {
    if n < 10 then [Digit(n)] else Decimal(n / 10) + [Digit(n % 10)]
  }

  const OMITTED_BEFORE := "\n... output truncated ("
  const OMITTED_AFTER := " characters omitted) ...\n"
  const MARKER := "\n... output truncated ...\n"

  function FormatHeadTail(head: string, tail: string, omitted: int): string {
    if omitted <= 0 then head + tail else head + OMITTED_BEFORE + Decimal(omitted) + OMITTED_AFTER + tail
  }

  datatype Drained = Drained(output: string, truncated: bool)

  /** What a limit leaves for output beside the marker. */
  function Available(limit: nat): nat {
    if limit < |MARKER| then 0 else limit - |MARKER|
  }

  function TruncateOutput(output: string, limit: nat): Drained {
    if |output| <= limit then Drained(output, false)
    else
      var h, t := HeadBudget(Available(limit)), TailBudget(Available(limit));
      Drained(TakeHead(output, h) + MARKER + TakeTail(output, t), true)
  }

  lemma AvailableIs(limit: nat)
    ensures |MARKER| == 26 && Available(limit) == if limit < 26 then 0 else limit - 26
  {
  }

  // ------------------------------------------------- the stream it stands for

  /** What is kept of a stream: all of it, or its first and last characters. */
  function KeptHead(stream: string, max: nat): string {
    if |stream| <= max then stream else stream[..HeadBudget(max)]
  }

  function KeptTail(stream: string, max: nat): string {
    if |stream| <= max then "" else stream[|stream| - TailBudget(max)..]
  }

  function OmittedFrom(stream: string, max: nat): nat {
    if |stream| <= max then 0 else |stream| - max
  }

  function Retained(stream: string, max: nat): string {
    FormatHeadTail(KeptHead(stream, max), KeptTail(stream, max), OmittedFrom(stream, max))
  }

  /** What a drain says of a stream. */
  function DrainOf(stream: string, max: nat, limit: nat): Drained {
    var r := TruncateOutput(Retained(stream, max), limit);
    Drained(r.output, OmittedFrom(stream, max) > 0 || r.truncated)
  }

  lemma BudgetsAddUp(n: nat)
    ensures HeadBudget(n) + TailBudget(n) == n && TailBudget(n) <= HeadBudget(n) <= TailBudget(n) + 1
  {
  }

  /** The tail of a longer stream depends only on the tail kept and what was appended. */
  lemma TailOfAppend(stream: string, output: string, count: nat)
    requires count <= |stream|
    ensures TakeTail(stream[|stream| - count..] + output, count) == TakeTail(stream + output, count)
  {
    var kept := stream[|stream| - count..];
    assert stream + output == stream[..|stream| - count] + (kept + output);
    if count > 0 {
      assert (stream + output)[|stream| + |output| - count..] == (kept + output)[|kept| + |output| - count..];
    }
  }

  lemma KeptLengths(stream: string, max: nat)
    ensures |stream| - |KeptHead(stream, max)| - |KeptTail(stream, max)| == OmittedFrom(stream, max)
  {
    BudgetsAddUp(max);
  }

  class Buffer {
    const maxCharacters: nat
    var head: string
    var tail: string
    var totalCharacters: int

    /** Everything appended since the last drain. */
    ghost var stream: string

    /** The buffer holds the whole stream, or exactly its first and last characters. */
    ghost predicate Valid()
      reads this
    {
      && maxCharacters >= 1
      && totalCharacters == |stream|
      && head == KeptHead(stream, maxCharacters)
      && tail == KeptTail(stream, maxCharacters)
    }

    constructor (maxCharacters: nat)
      requires maxCharacters >= 1
      ensures Valid() && this.maxCharacters == maxCharacters && stream == ""
    {
      this.maxCharacters := maxCharacters;
      head, tail, totalCharacters, stream := "", "", 0, "";
    }

    method Append(output: string)
      requires Valid()
      modifies this
      ensures Valid() && stream == old(stream) + output
    {
      if output == "" {
        assert stream == stream + output;
        return;
      }
      var previousTotal := totalCharacters;
      totalCharacters := totalCharacters + |output|;
      stream := stream + output;
      if totalCharacters <= maxCharacters {
        head := head + output;
        return;
      }
      BudgetsAddUp(maxCharacters);
      var headBudget, tailBudget := HeadBudget(maxCharacters), TailBudget(maxCharacters);
      if previousTotal <= maxCharacters {
        var fullOutput := head + output;
        head := TakeHead(fullOutput, headBudget);
        tail := TakeTail(fullOutput, tailBudget);
        return;
      }
      TailOfAppend(old(stream), output, tailBudget);
      assert (old(stream) + output)[..headBudget] == old(stream)[..headBudget];
      tail := TakeTail(tail + output, tailBudget);
    }

    method HasOutput() returns (r: bool)
      requires Valid()
      ensures r <==> stream != ""
    {
      return totalCharacters > 0;
    }

    method Drain(limit: nat) returns (r: Drained)
      requires Valid() && limit >= 1
      modifies this
      ensures Valid() && stream == ""
      ensures r == DrainOf(old(stream), maxCharacters, limit)
    {
      KeptLengths(stream, maxCharacters);
      var omittedByBuffer := totalCharacters - |head| - |tail|;
      if omittedByBuffer < 0 {
        omittedByBuffer := 0;
      }
      var retained := FormatHeadTail(head, tail, omittedByBuffer);
      var output := TruncateOutput(retained, limit);
      r := Drained(output.output, omittedByBuffer > 0 || output.truncated);
      head, tail, totalCharacters := "", "", 0;
      stream := "";
    }
  }

  // -------------------------------------------------------------- properties

  /** A drain that does not say "truncated" returns exactly the stream; one that does never
      had room for it. */
  lemma UntruncatedIsExact(stream: string, max: nat, limit: nat)
    requires max >= 1 && limit >= 1
    ensures !DrainOf(stream, max, limit).truncated <==> |stream| <= max && |stream| <= limit
    ensures !DrainOf(stream, max, limit).truncated ==> DrainOf(stream, max, limit).output == stream
  {
    assert stream + "" == stream;
  }

  /** The number a text of decimal digits stands for. */
  function NumberOf(s: string): int {
    if s == "" then 0 else 10 * NumberOf(s[..|s| - 1]) + (s[|s| - 1] as int - '0' as int)
  }

  /** A count is written as the digits that stand for it, with no zero before them. */
  lemma {:induction false} DecimalMeaning(n: nat)
    ensures var s := Decimal(n);
            && s != "" && NumberOf(s) == n
            && (forall i | 0 <= i < |s| :: '0' <= s[i] <= '9')
            && (s[0] == '0' ==> s == "0")
  {
    if n >= 10 {
      DecimalMeaning(n / 10);
      assert Decimal(n)[..|Decimal(n)| - 1] == Decimal(n / 10);
    } else {
      assert Decimal(n)[..0] == "";
    }
  }

  /** With a limit too small for the words "output truncated", a cut drain is those words alone. */
  lemma OnlyMarker(stream: string, max: nat, limit: nat)
    requires max >= 1 && 1 <= limit < 26 && DrainOf(stream, max, limit).truncated
    ensures DrainOf(stream, max, limit).output == "\n... output truncated ...\n"
  {
    AvailableIs(limit);
    assert stream + "" == stream;
    if |stream| > max {
      RetainedForm(stream, max);
    }
  }

  /** A drain stays within its limit, unless it has to say "truncated" and the limit has no
      room even for those words. */
  lemma WithinLimit(stream: string, max: nat, limit: nat)
    requires max >= 1 && limit >= 1
    ensures |DrainOf(stream, max, limit).output| <= limit <==>
            limit >= 26 || (|stream| <= max && |stream| <= limit)
  {
    AvailableIs(limit);
    BudgetsAddUp(Available(limit));
    assert stream + "" == stream;
  }

  lemma EndsKept(stream: string, a: nat, b: nat, words: string, h: nat, t: nat)
    requires h <= a <= |stream| && t <= b <= |stream|
    ensures var r := stream[..a] + words + stream[|stream| - b..];
            TakeHead(r, h) == stream[..h] && TakeTail(r, t) == stream[|stream| - t..]
  {
    var tail := stream[|stream| - b..];
    var r := stream[..a] + words + tail;
    assert r[..h] == stream[..h];
    assert r[|r| - t..] == tail[b - t..] == stream[|stream| - t..];
  }

  lemma {:induction false} RetainedForm(stream: string, max: nat)
    requires |stream| > max
    ensures Retained(stream, max) ==
            stream[..HeadBudget(max)] + (OMITTED_BEFORE + Decimal(|stream| - max) + OMITTED_AFTER)
            + stream[|stream| - TailBudget(max)..]
  {
  }

  lemma TruncatedForm(output: string, limit: nat)
    requires |output| > limit >= 26
    ensures TruncateOutput(output, limit) ==
            Drained(TakeHead(output, HeadBudget(limit - 26)) + MARKER + TakeTail(output, TailBudget(limit - 26)), true)
  {
    AvailableIs(limit);
  }

  /** The characters of the stream at the ends of what the buffer retains. */
  lemma RetainedEnds(stream: string, max: nat, h: nat, t: nat)
    requires h <= HeadBudget(max) && t <= TailBudget(max) && h + t <= |stream|
    ensures var r := Retained(stream, max);
            h + t <= |r| && r[..h] == stream[..h] && r[|r| - t..] == stream[|stream| - t..]
  {
    BudgetsAddUp(max);
    if |stream| <= max {
      assert stream + "" == stream;
    } else {
      RetainedForm(stream, max);
      EndsKept(stream, HeadBudget(max), TailBudget(max),
               OMITTED_BEFORE + Decimal(|stream| - max) + OMITTED_AFTER, h, t);
    }
  }

  lemma CutEnds(r: string, limit: nat, h: nat, t: nat)
    requires |r| > limit >= 26 && h <= HeadBudget(limit - 26) && t <= TailBudget(limit - 26)
    ensures var out := TruncateOutput(r, limit).output;
            t <= |out| && r[..h] <= out && out[|out| - t..] == r[|r| - t..]
  {
    TruncatedForm(r, limit);
    var head, tail := TakeHead(r, HeadBudget(limit - 26)), TakeTail(r, TailBudget(limit - 26));
    assert head[..h] == r[..h] && tail[|tail| - t..] == r[|r| - t..];
  }

  lemma BudgetsGrow(m: nat, n: nat)
    requires m <= n
    ensures HeadBudget(m) <= HeadBudget(n) && TailBudget(m) <= TailBudget(n)
  {
  }

  /** How many of the stream's characters a cut drain shows at least. */
  function Shown(max: nat, limit: nat): nat {
    if Available(limit) <= max then Available(limit) else max
  }

  /** A text that begins with a stream's first characters and ends with its last, half of a
      number of them at either end. */
  predicate ShowsEnds(out: string, stream: string, count: nat) {
    var h, t := HeadBudget(count), TailBudget(count);
    h <= |stream| && t <= |stream| && t <= |out| && stream[..h] <= out && out[|out| - t..] == stream[|stream| - t..]
  }

  lemma RetainedShows(stream: string, max: nat, count: nat)
    requires count <= max && count <= |stream|
    ensures ShowsEnds(Retained(stream, max), stream, count) && count <= |Retained(stream, max)|
  {
    BudgetsAddUp(count);
    BudgetsGrow(count, max);
    RetainedEnds(stream, max, HeadBudget(count), TailBudget(count));
  }

  lemma CutShows(stream: string, r: string, limit: nat, count: nat)
    requires |r| > limit >= 26 && count <= limit - 26 && count <= |r| && ShowsEnds(r, stream, count)
    ensures ShowsEnds(TruncateOutput(r, limit).output, stream, count)
  {
    BudgetsAddUp(count);
    BudgetsGrow(count, limit - 26);
    CutEnds(r, limit, HeadBudget(count), TailBudget(count));
  }

  lemma TakesEnds(s: string, h: nat, t: nat)
    requires h <= |s| && t <= |s|
    ensures TakeHead(s, h) == s[..h] && TakeTail(s, t) == s[|s| - t..]
  {
  }

  lemma ShownEnds(r: string, stream: string, count: nat)
    requires ShowsEnds(r, stream, count) && count <= |r|
    ensures TakeHead(r, HeadBudget(count)) == stream[..HeadBudget(count)]
    ensures TakeTail(r, TailBudget(count)) == stream[|stream| - TailBudget(count)..]
  {
    BudgetsAddUp(count);
    TakesEnds(r, HeadBudget(count), TailBudget(count));
  }

  lemma CutForm(stream: string, r: string, limit: nat)
    requires |r| > limit >= 26 && ShowsEnds(r, stream, limit - 26)
    ensures TruncateOutput(r, limit).output ==
            stream[..HeadBudget(limit - 26)] + MARKER + stream[|stream| - TailBudget(limit - 26)..]
  {
    ShownEnds(r, stream, limit - 26);
    TruncatedForm(r, limit);
  }

  lemma TruncatedIsLong(stream: string, max: nat, limit: nat)
    requires max >= 1 && limit >= 26 && DrainOf(stream, max, limit).truncated
    ensures Shown(max, limit) <= |stream| && Shown(max, limit) <= limit - 26 && Shown(max, limit) <= max
    ensures |Retained(stream, max)| <= limit ==> |stream| > max
  {
    AvailableIs(limit);
    assert stream + "" == stream;
  }

  /** A drain that says "truncated" begins and ends as the stream does: it shows as many
      characters as the buffer keeps and the limit leaves room for, half at either end. When
      what the buffer keeps fits the limit, or the limit cuts shorter than the buffer, this is
      all it shows beside the words for what is left out. */
  lemma {:induction false} ShowsBothEnds(stream: string, max: nat, limit: nat)
    requires max >= 1 && limit >= 26 && DrainOf(stream, max, limit).truncated
    ensures ShowsEnds(DrainOf(stream, max, limit).output, stream, Shown(max, limit))
    ensures |Retained(stream, max)| <= limit ==>
              && |stream| > max
              && DrainOf(stream, max, limit).output ==
                 stream[..HeadBudget(max)] + (OMITTED_BEFORE + Decimal(|stream| - max) + OMITTED_AFTER)
                 + stream[|stream| - TailBudget(max)..]
    ensures |Retained(stream, max)| > limit && limit - 26 <= max ==>
              && limit <= |stream| + 26
              && DrainOf(stream, max, limit).output ==
                 stream[..HeadBudget(limit - 26)] + MARKER + stream[|stream| - TailBudget(limit - 26)..]
  {
    var r := Retained(stream, max);
    AvailableIs(limit);
    TruncatedIsLong(stream, max, limit);
    RetainedShows(stream, max, Shown(max, limit));
    if |r| <= limit {
      RetainedForm(stream, max);
    } else {
      CutShows(stream, r, limit, Shown(max, limit));
      if limit - 26 <= max {
        CutForm(stream, r, limit);
      }
    }
  }
}
