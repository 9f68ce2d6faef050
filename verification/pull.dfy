/** Model provisioning (`pullModel`): the fold over the newline-delimited
    progress records the backend streams while it downloads a model. The
    records arrive already decoded; reading the stream and printing are
    outside the model, and the printed lines are kept as events. */
module Pull {
  import opened Options
  import opened JavaText

  /** Java's `long`, the type `getLong` returns. */
  type Long = x: int | -0x8000_0000_0000_0000 <= x <= 0x7FFF_FFFF_FFFF_FFFF

  /** One decoded line of the stream; every field may be missing. */
  datatype ProgressRecord = ProgressRecord(status: Option<string>, digest: Option<string>,
                                           completed: Option<Long>, total: Option<Long>)

  /** A stream line either decodes to a JSON object or does not. */
  datatype StreamLine = Record(record: ProgressRecord) | NotJson

  /** What the backend sent: no answer at all, or the lines read before the
      stream closed (`broken` when reading stopped on an IOException). */
  datatype PullReply = Refused | Streamed(lines: seq<StreamLine>, broken: bool)

  /** `has("total") && has("completed")`: the record reports download progress. */
  predicate IsProgress(r: ProgressRecord) {
    r.total.Some? && r.completed.Some?
  }

  /** A line the loop gets through without an exception: it decodes, and a
      progress record also carries the `digest` and `status` it reads. */
  predicate WellFormedLine(line: StreamLine) {
    line.Record? && (IsProgress(line.record) ==> line.record.digest.Some? && line.record.status.Some?)
  }

  predicate WellFormed(lines: seq<StreamLine>) {
    forall i :: 0 <= i < |lines| ==> WellFormedLine(lines[i])
  }

  const BytesPerMB: int := 1024 * 1024

  /** `bytes / (1024 * 1024)` on a `long`: whole megabytes, rounded toward
      zero, so down for every real byte count. */
  function ToMB(bytes: Long): (mb: int)
    ensures bytes >= 0 ==> 0 <= mb && mb * BytesPerMB <= bytes < (mb + 1) * BytesPerMB
  {
    TruncDiv(bytes, BytesPerMB)
  }

  /** The value of `(completedInMB * 100.0) / totalInMB` in `double`
      arithmetic: a `Ratio` is the quotient of the two operands, which are
      exact in a double since megabyte counts of a `long` stay below 2^44;
      the double division rounds that quotient, and the rounding is not
      modelled. A division by zero gives the infinities and NaN. */
  datatype Percentage = Ratio(num: int, den: int) | PosInfinity | NaN | NegInfinity

  function Percent(completedMB: int, totalMB: int): (p: Percentage)
    ensures totalMB != 0 <==> p.Ratio?
    ensures p.Ratio? ==> p.num == completedMB * 100 && p.den == totalMB
  {
    if totalMB != 0 then Ratio(completedMB * 100, totalMB)
    else if completedMB > 0 then PosInfinity
    else if completedMB == 0 then NaN
    else NegInfinity
  }

  /** What the loop prints for the download: a new line when a new blob
      starts, and the redrawn status line with percentage and sizes. */
  datatype ProgressEvent = NewLine | Update(status: string, percent: Percentage, completedMB: int, totalMB: int)

  /** The status line of a well-formed progress record: the sizes in whole
      megabytes, and the percentage computed from those truncated values,
      not from the bytes. */
  function Measure(r: ProgressRecord): (e: ProgressEvent)
    requires IsProgress(r) && r.status.Some?
    ensures e.Update? && e.status == r.status.value
    ensures e.completedMB == ToMB(r.completed.value) && e.totalMB == ToMB(r.total.value)
    ensures e.percent == Percent(e.completedMB, e.totalMB)
    ensures r.completed.value >= 0 ==> e.completedMB * BytesPerMB <= r.completed.value < (e.completedMB + 1) * BytesPerMB
    ensures r.total.value >= 0 ==> e.totalMB * BytesPerMB <= r.total.value < (e.totalMB + 1) * BytesPerMB
  {
    var completedMB := ToMB(r.completed.value);
    var totalMB := ToMB(r.total.value);
    Update(r.status.value, Percent(completedMB, totalMB), completedMB, totalMB)
  }

  /** Only whole megabytes reach the status line: two records with the same
      status whose byte counts fall in the same megabytes print the same line,
      however many bytes apart they are. */
  lemma MeasureWholeMegabytes(r1: ProgressRecord, r2: ProgressRecord)
    requires IsProgress(r1) && r1.status.Some? && IsProgress(r2) && r2.status.Some?
    requires r1.status == r2.status
    requires r1.completed.value >= 0 && r2.completed.value >= 0 && r1.total.value >= 0 && r2.total.value >= 0
    requires r1.completed.value / BytesPerMB == r2.completed.value / BytesPerMB
    requires r1.total.value / BytesPerMB == r2.total.value / BytesPerMB
    ensures Measure(r1) == Measure(r2)
  {
  }

  datatype StepResult = StepResult(events: seq<ProgressEvent>, digest: string, ok: bool)

  /** One iteration of the read loop with `current` the digest tracked so
      far. `ok` is false where the iteration throws: a line that is not JSON,
      or a progress record without `digest` (before anything is printed) or
      without `status` (after the digest check has run). */
  function Step(line: StreamLine, current: string): (s: StepResult)
    ensures s.ok <==> WellFormedLine(line)
    ensures line.Record? && !IsProgress(line.record) ==> s.events == [] && s.digest == current
    ensures line.Record? && IsProgress(line.record) && line.record.digest.Some? ==>
              && s.digest == line.record.digest.value
              && ((|s.events| > 0 && s.events[0] == NewLine) <==> line.record.digest.value != current)
  {
    match line
    case NotJson => StepResult([], current, false)
    case Record(r) =>
      if !IsProgress(r) then StepResult([], current, true)
      else match r.digest
        case None => StepResult([], current, false)
        case Some(d) =>
          var nl := if d != current then [NewLine] else [];
          match r.status
          case None => StepResult(nl, d, false)
          case Some(_) => StepResult(nl + [Measure(r)], d, true)
  }

  /** How reading ended: the stream closed, reading failed (the process then
      exits with status 1), the line at `index` threw, or the request itself
      was refused (uncaught, outside the try block). */
  datatype PullEnd = Finished | ReadFailed | Malformed(index: nat) | RequestFailed

  datatype Pulled = Pulled(events: seq<ProgressEvent>, digest: string, end: PullEnd)

  /** The read loop over the remaining `lines`, `seen` lines in. */
  function Track(lines: seq<StreamLine>, current: string, broken: bool, seen: nat): Pulled
    decreases |lines|
  {
    if |lines| == 0 then Pulled([], current, if broken then ReadFailed else Finished)
    else
      var s := Step(lines[0], current);
      if !s.ok then Pulled(s.events, s.digest, Malformed(seen))
      else
        var rest := Track(lines[1..], s.digest, broken, seen + 1);
        Pulled(s.events + rest.events, rest.digest, rest.end)
  }

  /** `pullModel`: the loop starts with the empty digest. */
  function PullModel(reply: PullReply): Pulled {
    match reply
    case Refused => Pulled([], "", RequestFailed)
    case Streamed(lines, broken) => Track(lines, "", broken, 0)
  }

  // Reference definitions, stated over the records rather than the loop.

  /** The progress records of the stream, in order. */
  function ProgressRecords(lines: seq<StreamLine>): (rs: seq<ProgressRecord>)
    ensures forall i :: 0 <= i < |rs| ==> IsProgress(rs[i]) && Record(rs[i]) in lines
    ensures |rs| <= |lines|
    decreases |lines|
  {
    if |lines| == 0 then []
    else (if lines[0].Record? && IsProgress(lines[0].record) then [lines[0].record] else [])
         + ProgressRecords(lines[1..])
  }

  /** The digests of the progress records, in order. */
  function Digests(rs: seq<ProgressRecord>): seq<string> {
    seq(|rs|, i requires 0 <= i < |rs| => rs[i].digest.GetOr(""))
  }

  /** Position by position: does this digest differ from the one before it
      (from `first` for the first one)? */
  function ChangePoints(ds: seq<string>, first: string): seq<bool> {
    seq(|ds|, i requires 0 <= i < |ds| => ds[i] != (if i == 0 then first else ds[i - 1]))
  }

  function CountTrue(bs: seq<bool>): nat
    decreases |bs|
  {
    if |bs| == 0 then 0 else (if bs[0] then 1 else 0) + CountTrue(bs[1..])
  }

  function LastOr(ds: seq<string>, default: string): string {
    if |ds| == 0 then default else ds[|ds| - 1]
  }

  function NewLines(es: seq<ProgressEvent>): nat
    decreases |es|
  {
    if |es| == 0 then 0 else (if es[0] == NewLine then 1 else 0) + NewLines(es[1..])
  }

  /** The status lines among the events, in order. */
  function Updates(es: seq<ProgressEvent>): seq<ProgressEvent>
    decreases |es|
  {
    if |es| == 0 then [] else (if es[0].Update? then [es[0]] else []) + Updates(es[1..])
  }

  lemma {:induction false} NewLinesAppend(a: seq<ProgressEvent>, b: seq<ProgressEvent>)
    ensures NewLines(a + b) == NewLines(a) + NewLines(b)
    decreases |a|
  {
    if |a| == 0 {
      assert a + b == b;
    } else {
      assert (a + b)[1..] == a[1..] + b;
      NewLinesAppend(a[1..], b);
    }
  }

  lemma {:induction false} UpdatesAppend(a: seq<ProgressEvent>, b: seq<ProgressEvent>)
    ensures Updates(a + b) == Updates(a) + Updates(b)
    decreases |a|
  {
    if |a| == 0 {
      assert a + b == b;
    } else {
      assert (a + b)[1..] == a[1..] + b;
      UpdatesAppend(a[1..], b);
    }
  }

  lemma ChangePointsCons(ds: seq<string>, first: string)
    requires |ds| > 0
    ensures ChangePoints(ds, first) == [ds[0] != first] + ChangePoints(ds[1..], ds[0])
  {
  }

  lemma WellFormedTail(lines: seq<StreamLine>)
    requires |lines| > 0 && WellFormed(lines)
    ensures WellFormedLine(lines[0]) && WellFormed(lines[1..])
  {
    assert forall i :: 0 <= i < |lines[1..]| ==> lines[1..][i] == lines[i + 1];
  }

  /** The loop stops early exactly at the first line that throws; otherwise
      it runs to the end of the stream and reports how the stream ended. */
  lemma {:induction false} TrackEnd(lines: seq<StreamLine>, current: string, broken: bool, seen: nat)
    ensures var p := Track(lines, current, broken, seen);
            && (p.end.Malformed? <==> !WellFormed(lines))
            && (WellFormed(lines) ==> p.end == (if broken then ReadFailed else Finished))
            && (p.end.Malformed? ==>
                  && seen <= p.end.index < seen + |lines|
                  && !WellFormedLine(lines[p.end.index - seen])
                  && forall j :: 0 <= j < p.end.index - seen ==> WellFormedLine(lines[j]))
    decreases |lines|
  {
    if |lines| > 0 {
      var s := Step(lines[0], current);
      if s.ok {
        TrackEnd(lines[1..], s.digest, broken, seen + 1);
        var p := Track(lines[1..], s.digest, broken, seen + 1);
        assert WellFormed(lines) <==> WellFormed(lines[1..]) by {
          if WellFormed(lines[1..]) {
            forall i | 0 <= i < |lines| ensures WellFormedLine(lines[i]) {
              if i > 0 { assert lines[i] == lines[1..][i - 1]; }
            }
          } else {
            var i :| 0 <= i < |lines[1..]| && !WellFormedLine(lines[1..][i]);
            assert lines[1..][i] == lines[i + 1];
          }
        }
        if p.end.Malformed? {
          forall j | 0 <= j < p.end.index - seen ensures WellFormedLine(lines[j]) {
            if j > 0 { assert lines[j] == lines[1..][j - 1]; }
          }
        }
      }
    }
  }

  /** Every progress record of a well-formed stream leaves its digest as the
      tracked one: after the loop the tracked digest is the last progress
      record's digest, or the starting one when there was no progress. */
  lemma {:induction false} TrackDigest(lines: seq<StreamLine>, current: string, broken: bool, seen: nat)
    requires WellFormed(lines)
    ensures Track(lines, current, broken, seen).digest == LastOr(Digests(ProgressRecords(lines)), current)
    decreases |lines|
  {
    if |lines| > 0 {
      WellFormedTail(lines);
      var s := Step(lines[0], current);
      TrackDigest(lines[1..], s.digest, broken, seen + 1);
      var tail := Digests(ProgressRecords(lines[1..]));
      if lines[0].Record? && IsProgress(lines[0].record) {
        var r := lines[0].record;
        assert ProgressRecords(lines) == [r] + ProgressRecords(lines[1..]);
        assert Digests(ProgressRecords(lines)) == [r.digest.value] + tail;
      } else {
        assert ProgressRecords(lines) == ProgressRecords(lines[1..]);
      }
    }
  }

  /** A new progress line is started exactly at the digest changes: the
      number of new lines equals the number of progress records whose digest
      differs from the digest tracked before them. */
  lemma {:induction false} TrackNewLines(lines: seq<StreamLine>, current: string, broken: bool, seen: nat)
    requires WellFormed(lines)
    ensures NewLines(Track(lines, current, broken, seen).events)
            == CountTrue(ChangePoints(Digests(ProgressRecords(lines)), current))
    decreases |lines|
  {
    if |lines| > 0 {
      WellFormedTail(lines);
      var s := Step(lines[0], current);
      var rest := Track(lines[1..], s.digest, broken, seen + 1);
      TrackNewLines(lines[1..], s.digest, broken, seen + 1);
      NewLinesAppend(s.events, rest.events);
      if lines[0].Record? && IsProgress(lines[0].record) {
        var r := lines[0].record;
        var d := r.digest.value;
        var tail := Digests(ProgressRecords(lines[1..]));
        assert ProgressRecords(lines) == [r] + ProgressRecords(lines[1..]);
        assert Digests(ProgressRecords(lines)) == [d] + tail;
        ChangePointsCons([d] + tail, current);
        assert ([d] + tail)[1..] == tail;
        var nl: seq<ProgressEvent> := if d != current then [NewLine] else [];
        assert s.events == nl + [Measure(r)];
        NewLinesAppend(nl, [Measure(r)]);
        assert NewLines([Measure(r)]) == 0;
      } else {
        assert ProgressRecords(lines) == ProgressRecords(lines[1..]);
      }
    }
  }

  /** The progress records of a well-formed stream all carry a status. */
  lemma ProgressRecordsHaveStatus(lines: seq<StreamLine>)
    requires WellFormed(lines)
    ensures forall i :: 0 <= i < |ProgressRecords(lines)| ==> ProgressRecords(lines)[i].status.Some?
  {
    var rs := ProgressRecords(lines);
    forall i | 0 <= i < |rs| ensures rs[i].status.Some? {
      var j :| 0 <= j < |lines| && lines[j] == Record(rs[i]);
      assert WellFormedLine(lines[j]);
    }
  }

  /** The status lines of a list of progress records, in order. */
  function Measures(rs: seq<ProgressRecord>): (es: seq<ProgressEvent>)
    requires forall i :: 0 <= i < |rs| ==> IsProgress(rs[i]) && rs[i].status.Some?
    ensures |es| == |rs|
    decreases |rs|
  {
    if |rs| == 0 then [] else [Measure(rs[0])] + Measures(rs[1..])
  }

  /** The status lines are the progress records, measured, in stream order;
      records without `total` or `completed` print nothing. */
  lemma {:induction false} TrackUpdates(lines: seq<StreamLine>, current: string, broken: bool, seen: nat)
    requires WellFormed(lines)
    ensures forall i :: 0 <= i < |ProgressRecords(lines)| ==> ProgressRecords(lines)[i].status.Some?
    ensures Updates(Track(lines, current, broken, seen).events) == Measures(ProgressRecords(lines))
    decreases |lines|
  {
    ProgressRecordsHaveStatus(lines);
    if |lines| > 0 {
      WellFormedTail(lines);
      ProgressRecordsHaveStatus(lines[1..]);
      var s := Step(lines[0], current);
      var rest := Track(lines[1..], s.digest, broken, seen + 1);
      TrackUpdates(lines[1..], s.digest, broken, seen + 1);
      UpdatesAppend(s.events, rest.events);
      var tail := ProgressRecords(lines[1..]);
      if lines[0].Record? && IsProgress(lines[0].record) {
        var r := lines[0].record;
        assert ProgressRecords(lines) == [r] + tail;
        assert ([r] + tail)[1..] == tail;
        var nl: seq<ProgressEvent> := if r.digest.value != current then [NewLine] else [];
        assert s.events == nl + [Measure(r)];
        UpdatesAppend(nl, [Measure(r)]);
        assert Updates(nl) == [];
        assert Updates([Measure(r)]) == [Measure(r)];
      } else {
        assert ProgressRecords(lines) == tail;
        assert Updates(s.events) == [];
      }
    }
  }

  /** Whole megabytes never run ahead of the bytes: when completed <= total,
      completedMB <= totalMB, and with a non-zero total megabyte count the
      percentage lies between 0 and 100. */
  lemma MegabytesOrdered(completed: Long, total: Long)
    requires 0 <= completed <= total
    ensures 0 <= ToMB(completed) <= ToMB(total)
    ensures ToMB(total) > 0 ==>
      var p := Percent(ToMB(completed), ToMB(total));
      p.Ratio? && 0 <= p.num <= 100 * p.den
  {
    TruncDivMonotone(completed, total, BytesPerMB);
  }

  /** 1 MiB of 2 MiB is 50 percent; 1.5 MiB of 2 MiB is also 50, since the
      bytes are truncated to whole megabytes first; under 1 MiB in total the
      double division is by zero. */
  lemma PercentSamples()
    ensures Percent(ToMB(1048576), ToMB(2097152)) == Ratio(100, 2)
    ensures Percent(ToMB(1572864), ToMB(2097152)) == Ratio(100, 2)
    ensures Percent(ToMB(0), ToMB(1048575)) == NaN
    ensures Percent(ToMB(1048576), ToMB(1048575)) == PosInfinity
  {
  }

  /** A change of digest from `sha1` to `sha2` starts one new line each. */
  lemma DigestChangeSample()
    ensures var r1 := ProgressRecord(Some("downloading"), Some("sha1"), Some(1048576), Some(2097152));
            var r2 := ProgressRecord(Some("downloading"), Some("sha2"), Some(0), Some(2097152));
            var p := PullModel(Streamed([Record(r1), Record(r1), Record(r2)], false));
            p.end == Finished && p.digest == "sha2" && NewLines(p.events) == 2
            && p.events[0] == NewLine && p.events[1] == Update("downloading", Ratio(100, 2), 1, 2)
  {
    var r1 := ProgressRecord(Some("downloading"), Some("sha1"), Some(1048576), Some(2097152));
    var r2 := ProgressRecord(Some("downloading"), Some("sha2"), Some(0), Some(2097152));
    var lines := [Record(r1), Record(r1), Record(r2)];
    assert lines[1..] == [Record(r1), Record(r2)];
    assert lines[1..][1..] == [Record(r2)];
    assert lines[1..][1..][1..] == [];
    var s1 := Step(Record(r1), "");
    var s2 := Step(Record(r1), "sha1");
    var s3 := Step(Record(r2), "sha1");
    assert s1.events == [NewLine, Update("downloading", Ratio(100, 2), 1, 2)];
    assert s2.events == [Update("downloading", Ratio(100, 2), 1, 2)];
    assert s3.events == [NewLine, Update("downloading", Ratio(0, 2), 0, 2)];
    var t3 := Track([Record(r2)], "sha1", false, 2);
    assert [Record(r2)][1..] == [];
    assert Track([], "sha2", false, 3).events == [];
    assert t3.events == s3.events + [];
    var t2 := Track(lines[1..], "sha1", false, 1);
    assert t2.events == s2.events + t3.events;
    var t1 := Track(lines, "", false, 0);
    assert t1.events == s1.events + t2.events;
    NewLinesAppend(s1.events, t2.events);
    NewLinesAppend(s2.events, t3.events);
    assert s3.events[1..] == [Update("downloading", Ratio(0, 2), 0, 2)];
    assert NewLines(s3.events[1..]) == 0;
    assert NewLines(s1.events) == 1 && NewLines(s2.events) == 0 && NewLines(s3.events) == 1;
    assert t3.events == s3.events;
  }
}
