/** The bodies of the two update workers (updater.py): the release check, which emits exactly one
    outcome, and the download, which writes the streamed chunks and reports an integer percentage.
    The HTTP answer, the content-length header, the opened file and the chunks are inputs; the
    emitted signals and the written chunks are outputs. */
module Updater {
  import opened Wrappers
  import opened Json
  import Text
  import Config
  import Releases

  // ---------------- release check ----------------

  /** A signal of the checker thread. */
  datatype CheckerSignal = Found(version: string, url: Value) | NoUpdate | CheckFailed

  /** `UpdateChecker.run`: `found` exactly when the release lookup offers a release, `none` otherwise.
      The lookup catches every exception itself, so `fail` is never emitted. */
  method CheckerRun(fetched: Option<Value>) returns (emitted: seq<CheckerSignal>)
    ensures |emitted| == 1
    ensures emitted[0].Found? <==> Releases.Parse(fetched, Config.CurrentVersion).Some?
    ensures forall r :: Releases.Parse(fetched, Config.CurrentVersion) == Some(r) ==> emitted[0] == Found(r.version, r.url)
    ensures !emitted[0].CheckFailed?
  {
    var res := Releases.LatestRelease(fetched, Config.CurrentVersion);
    if res.Some? {
      emitted := [Found(res.value.version, res.value.url)];
    } else {
      emitted := [NoUpdate];
    }
  }

  // ---------------- download ----------------

  type Chunk = seq<bv8>

  /** How the streamed request answered: not at all (it raised), or with a status code. */
  datatype Answer = Unreachable | Status(code: int)

  /** A signal of the downloader thread. */
  datatype DownloadSignal = Progress(percent: int) | Done(path: string) | DownloadFailed

  predicate AllDigits(s: string) {
    forall i :: 0 <= i < |s| ==> '0' <= s[i] <= '9'
  }

  /** `int(s)` on an optional sign followed by decimal digits; anything else raises. */
  function ParseInt(s: string): Result<int> {
    if s != [] && (s[0] == '-' || s[0] == '+') then
      if |s| > 1 && AllDigits(s[1..]) then Ok((if s[0] == '-' then -1 else 1) * Text.DigitsValue(s[1..]))
      else Raised
    else if s != [] && AllDigits(s) then Ok(Text.DigitsValue(s))
    else Raised
  }

  /** `int(r.headers.get("content-length") or 0)`: a missing or empty header counts as 0. */
  function ContentLength(header: Option<string>): Result<int> {
    if header.None? || header.value == "" then Ok(0) else ParseInt(header.value)
  }

  /** How the downloader reads the length header: a missing or empty header is 0, decimal digits are
      their value, with an optional sign before them, and a header that starts with anything else raises. */
  lemma ContentLengthReads(h: string)
    ensures ContentLength(None) == Ok(0) && ContentLength(Some("")) == Ok(0)
    ensures h != [] && AllDigits(h) ==> ContentLength(Some(h)) == Ok(Text.DigitsValue(h))
    ensures h != [] && AllDigits(h) ==> ContentLength(Some("-" + h)) == Ok(-1 * Text.DigitsValue(h))
    ensures h != [] && AllDigits(h) ==> ContentLength(Some("+" + h)) == Ok(Text.DigitsValue(h))
    ensures h != [] && !('0' <= h[0] <= '9') && h[0] != '-' && h[0] != '+' ==> ContentLength(Some(h)).Raised?
  {
    if h != [] && AllDigits(h) {
      assert '0' <= h[0] <= '9';
      var neg := "-" + h;
      assert neg[0] == '-' && neg[1..] == h;
      var pos := "+" + h;
      assert pos[0] == '+' && pos[1..] == h;
    }
    if h != [] && !('0' <= h[0] <= '9') && h[0] != '-' && h[0] != '+' {
      assert !AllDigits(h);
    }
  }

  /** `int(done * 100 / total)`: the quotient truncated toward zero. */
  function Percent(done: nat, total: int): int
    requires total != 0
  {
    if total > 0 then done * 100 / total else -(done * 100 / -total)
  }

  /** The chunks that are not empty, in order. */
  function NonEmpty(chunks: seq<Chunk>): (r: seq<Chunk>)
    ensures |r| <= |chunks|
    ensures forall i :: 0 <= i < |r| ==> r[i] != []
  {
    if chunks == [] then [] else (if chunks[0] == [] then [] else [chunks[0]]) + NonEmpty(chunks[1..])
  }

  /** The number of bytes in `chunks`. */
  function Size(chunks: seq<Chunk>): nat {
    if chunks == [] then 0 else |chunks[0]| + Size(chunks[1..])
  }

  /** The progress signals the chunk loop emits over `chunks` once `done` bytes are counted. */
  function Progresses(chunks: seq<Chunk>, total: int, done: nat): seq<DownloadSignal> {
    if chunks == [] then []
    else if chunks[0] == [] || total == 0 then Progresses(chunks[1..], total, done)
    else [Progress(Percent(done + |chunks[0]|, total))] + Progresses(chunks[1..], total, done + |chunks[0]|)
  }

  /** The chunks the iterator yields before it raises at position `failAt`, if it does. */
  function Streamed(chunks: seq<Chunk>, failAt: Option<nat>): seq<Chunk> {
    if failAt.Some? && failAt.value < |chunks| then chunks[..failAt.value] else chunks
  }

  /** `UpdateDownloader.run` as signals and written chunks. A request that raises, an error status
      (`raise_for_status`), an unreadable content-length or a file that cannot be opened emit `fail`
      alone; otherwise every non-empty chunk is written and, when the length is non-zero, reported;
      `done` follows the whole loop, and an error while streaming emits `fail` instead. */
  function Download(answer: Answer, header: Option<string>, canOpen: bool, chunks: seq<Chunk>, failAt: Option<nat>,
                    dest: string): (seq<DownloadSignal>, seq<Chunk>)
  {
    if answer.Unreachable? || 400 <= answer.code < 600 then ([DownloadFailed], [])
    else match ContentLength(header)
      case Raised => ([DownloadFailed], [])
      case Ok(total) =>
        if !canOpen then ([DownloadFailed], [])
        else
          var streamed := Streamed(chunks, failAt);
          var last := if |streamed| < |chunks| then DownloadFailed else Done(dest);
          (Progresses(streamed, total, 0) + [last], NonEmpty(streamed))
  }

  lemma Assoc<T>(a: seq<T>, b: seq<T>, c: seq<T>)
    ensures (a + b) + c == a + (b + c)
  {
  }

  /** The chunk loop: every non-empty chunk is written and, when the length is non-zero, counted and
      reported as a percentage. */
  method StreamChunks(streamed: seq<Chunk>, total: int) returns (signals: seq<DownloadSignal>, written: seq<Chunk>)
    ensures signals == Progresses(streamed, total, 0)
    ensures written == NonEmpty(streamed)
  {
    var done: nat := 0;
    signals := [];
    written := [];
    var i := 0;
    while i < |streamed|
      invariant 0 <= i <= |streamed|
      invariant signals + Progresses(streamed[i..], total, done) == Progresses(streamed, total, 0)
      invariant written + NonEmpty(streamed[i..]) == NonEmpty(streamed)
    {
      var chunk := streamed[i];
      ghost var rest := streamed[i..];
      assert rest[0] == chunk && rest[1..] == streamed[i + 1..];
      LoopStep(rest, total, done);
      if chunk != [] {
        assert NonEmpty(rest) == [chunk] + NonEmpty(streamed[i + 1..]);
        Assoc(written, [chunk], NonEmpty(streamed[i + 1..]));
        written := written + [chunk];
        if total != 0 {
          var p := Progress(Percent(done + |chunk|, total));
          assert Progresses(rest, total, done) == [p] + Progresses(streamed[i + 1..], total, done + |chunk|);
          Assoc(signals, [p], Progresses(streamed[i + 1..], total, done + |chunk|));
          done := done + |chunk|;
          signals := signals + [p];
        } else {
          assert Progresses(rest, total, done) == Progresses(streamed[i + 1..], total, done);
        }
      } else {
        assert NonEmpty(rest) == NonEmpty(streamed[i + 1..]);
        assert Progresses(rest, total, done) == Progresses(streamed[i + 1..], total, done);
      }
      i := i + 1;
    }
    assert streamed[i..] == [];
  }

  /** The downloader thread: the URL to fetch and the file to write. */
  class Downloader {
    const url: string
    const dest: string

    constructor (url: string, dest: string)
      ensures this.url == url && this.dest == dest
    {
      this.url := url;
      this.dest := dest;
    }

    /** `run()`: the chunk loop that skips empty chunks, writes the others and, when the total is
        known, accumulates their length and emits the percentage. */
    method Run(answer: Answer, header: Option<string>, canOpen: bool, chunks: seq<Chunk>, failAt: Option<nat>)
      returns (signals: seq<DownloadSignal>, written: seq<Chunk>)
      ensures (signals, written) == Download(answer, header, canOpen, chunks, failAt, dest)
    {
      if answer.Unreachable? || 400 <= answer.code < 600 {
        return [DownloadFailed], [];
      }
      var length := ContentLength(header);
      if length.Raised? || !canOpen {
        return [DownloadFailed], [];
      }
      var total := length.value;
      var streamed := Streamed(chunks, failAt);
      signals, written := StreamChunks(streamed, total);
      if |streamed| < |chunks| {
        signals := signals + [DownloadFailed];
      } else {
        signals := signals + [Done(dest)];
      }
    }
  }

  /** One turn of the chunk loop, on the reports and on the written chunks. */
  lemma LoopStep(cs: seq<Chunk>, total: int, done: nat)
    requires cs != []
    ensures Progresses(cs, total, done) ==
      (if cs[0] == [] || total == 0 then [] else [Progress(Percent(done + |cs[0]|, total))]) +
      Progresses(cs[1..], total, if cs[0] == [] || total == 0 then done else done + |cs[0]|)
    ensures NonEmpty(cs) == (if cs[0] == [] then [] else [cs[0]]) + NonEmpty(cs[1..])
  {
  }

  /** Without a content-length (missing, empty or 0) nothing is reported; `done` is still emitted alone
      when the download succeeds. */
  lemma {:induction false} NoLengthNoProgress(chunks: seq<Chunk>, done: nat)
    ensures Progresses(chunks, 0, done) == []
  {
    if chunks != [] {
      NoLengthNoProgress(chunks[1..], done);
    }
  }

  lemma NoLengthDownload(answer: Answer, header: Option<string>, chunks: seq<Chunk>, dest: string)
    requires answer.Status? && !(400 <= answer.code < 600)
    requires ContentLength(header) == Ok(0)
    ensures Download(answer, header, true, chunks, None, dest) == ([Done(dest)], NonEmpty(chunks))
  {
    NoLengthNoProgress(chunks, 0);
    assert Streamed(chunks, None) == chunks;
    assert Progresses(chunks, 0, 0) + [Done(dest)] == [Done(dest)];
  }

  /** With a non-zero total, the loop emits one signal per non-empty chunk, the `k`-th being the
      truncated percentage of the bytes of the first `k + 1` non-empty chunks. */
  lemma {:induction false} ProgressValues(chunks: seq<Chunk>, total: int, done: nat)
    requires total != 0
    ensures |Progresses(chunks, total, done)| == |NonEmpty(chunks)|
    ensures forall k :: 0 <= k < |NonEmpty(chunks)| ==>
      Progresses(chunks, total, done)[k] == Progress(Percent(done + Size(NonEmpty(chunks)[..k + 1]), total))
  {
    ProgressCount(chunks, total, done);
    forall k | 0 <= k < |NonEmpty(chunks)|
      ensures Progresses(chunks, total, done)[k] == Progress(Percent(done + Size(NonEmpty(chunks)[..k + 1]), total))
    {
      ProgressAt(chunks, total, done, k);
    }
  }

  lemma {:induction false} ProgressCount(chunks: seq<Chunk>, total: int, done: nat)
    requires total != 0
    ensures |Progresses(chunks, total, done)| == |NonEmpty(chunks)|
  {
    if chunks != [] {
      var c := chunks[0];
      ProgressCount(chunks[1..], total, if c == [] then done else done + |c|);
    }
  }

  lemma {:induction false} ProgressAt(chunks: seq<Chunk>, total: int, done: nat, k: nat)
    requires total != 0 && k < |NonEmpty(chunks)|
    ensures |Progresses(chunks, total, done)| == |NonEmpty(chunks)|
    ensures Progresses(chunks, total, done)[k] == Progress(Percent(done + Size(NonEmpty(chunks)[..k + 1]), total))
  {
    ProgressCount(chunks, total, done);
    var c := chunks[0];
    var rest := NonEmpty(chunks[1..]);
    if c == [] {
      assert NonEmpty(chunks) == rest;
      assert Progresses(chunks, total, done) == Progresses(chunks[1..], total, done);
      ProgressAt(chunks[1..], total, done, k);
    } else {
      var tail := Progresses(chunks[1..], total, done + |c|);
      assert NonEmpty(chunks) == [c] + rest;
      assert Progresses(chunks, total, done) == [Progress(Percent(done + |c|, total))] + tail;
      if k == 0 {
        assert NonEmpty(chunks)[..1] == [c];
        assert Size([c]) == |c| + Size([]);
      } else {
        ProgressAt(chunks[1..], total, done + |c|, k - 1);
        SizeConsPrefix(c, rest, k);
        assert done + |c| + Size(rest[..k]) == done + Size(NonEmpty(chunks)[..k + 1]);
      }
    }
  }


  lemma SizeConsPrefix(c: Chunk, rest: seq<Chunk>, k: nat)
    requires k <= |rest|
    ensures Size(([c] + rest)[..k + 1]) == |c| + Size(rest[..k])
  {
    assert ([c] + rest)[..k + 1] == [c] + rest[..k];
    assert ([c] + rest[..k])[1..] == rest[..k];
  }

  /** Truncated percentages of a positive total grow with the count. */
  lemma PercentMonotone(a: nat, b: nat, total: int)
    requires 0 < total && a <= b
    ensures Percent(a, total) <= Percent(b, total)
  {
    DivMonotone(a * 100, b * 100, total);
  }

  lemma DivMonotone(x: nat, y: nat, d: int)
    requires 0 < d && x <= y
    ensures x / d <= y / d
  {
    var qx, rx := x / d, x % d;
    var qy, ry := y / d, y % d;
    assert x == d * qx + rx && 0 <= rx < d;
    assert y == d * qy + ry && 0 <= ry < d;
    assert d * qx < d * (qy + 1);
    MulCancel(d, qx, qy + 1);
  }

  lemma MulCancel(d: int, a: int, b: int)
    requires d > 0 && d * a < d * b
    ensures a < b
  {
    assert d * (b - a) > 0;
  }

  predicate Nondecreasing(ps: seq<DownloadSignal>) {
    forall i, j :: 0 <= i < j < |ps| ==> ps[i].Progress? && ps[j].Progress? && ps[i].percent <= ps[j].percent
  }

  /** Every reported percentage is at least the one already reached, and they never go down. */
  lemma {:induction false} ProgressNondecreasing(chunks: seq<Chunk>, total: int, done: nat)
    requires total > 0
    ensures forall k :: 0 <= k < |Progresses(chunks, total, done)| ==>
      Progresses(chunks, total, done)[k].Progress? && Progresses(chunks, total, done)[k].percent >= Percent(done, total)
    ensures Nondecreasing(Progresses(chunks, total, done))
  {
    if chunks != [] {
      var next := if chunks[0] == [] then done else done + |chunks[0]|;
      ProgressNondecreasing(chunks[1..], total, next);
      PercentMonotone(done, next, total);
    }
  }

  lemma {:induction false} NonEmptySize(chunks: seq<Chunk>)
    ensures Size(NonEmpty(chunks)) == Size(chunks)
  {
    if chunks != [] {
      NonEmptySize(chunks[1..]);
      SizeAppend(if chunks[0] == [] then [] else [chunks[0]], NonEmpty(chunks[1..]));
    }
  }

  lemma {:induction false} SizeAppend(a: seq<Chunk>, b: seq<Chunk>)
    ensures Size(a + b) == Size(a) + Size(b)
  {
    if a != [] {
      assert (a + b)[0] == a[0] && (a + b)[1..] == a[1..] + b;
      SizeAppend(a[1..], b);
    } else {
      assert a + b == b;
    }
  }

  /** When the bytes received equal a positive content-length, the last report is 100%. */
  lemma ReachesHundred(chunks: seq<Chunk>, total: int)
    requires total > 0 && Size(chunks) == total
    ensures Progresses(chunks, total, 0) != [] && Progresses(chunks, total, 0)[|Progresses(chunks, total, 0)| - 1] == Progress(100)
  {
    ProgressValues(chunks, total, 0);
    NonEmptySize(chunks);
    var ne := NonEmpty(chunks);
    assert ne != [];
    assert ne[..|ne|] == ne;
    Hundred(total);
  }

  lemma Hundred(total: int)
    requires total > 0
    ensures Percent(total, total) == 100
  {
  }

  lemma {:induction false} NonEmptyIdempotent(chunks: seq<Chunk>)
    ensures NonEmpty(NonEmpty(chunks)) == NonEmpty(chunks)
    ensures Progresses(NonEmpty(chunks), 0, 0) == Progresses(chunks, 0, 0)
  {
    if chunks != [] {
      NonEmptyIdempotent(chunks[1..]);
      NonEmptyAppend(if chunks[0] == [] then [] else [chunks[0]], NonEmpty(chunks[1..]));
      NoLengthNoProgress(NonEmpty(chunks), 0);
      NoLengthNoProgress(chunks, 0);
    }
  }

  lemma {:induction false} NonEmptyAppend(a: seq<Chunk>, b: seq<Chunk>)
    ensures NonEmpty(a + b) == NonEmpty(a) + NonEmpty(b)
  {
    if a != [] {
      assert (a + b)[0] == a[0] && (a + b)[1..] == a[1..] + b;
      NonEmptyAppend(a[1..], b);
    } else {
      assert a + b == b;
    }
  }

  /** Empty chunks have no effect on the reports. */
  lemma {:induction false} EmptyChunksSkipped(chunks: seq<Chunk>, total: int, done: nat)
    ensures Progresses(NonEmpty(chunks), total, done) == Progresses(chunks, total, done)
  {
    if chunks != [] {
      var c := chunks[0];
      var rest := NonEmpty(chunks[1..]);
      if c == [] {
        assert NonEmpty(chunks) == rest;
        assert Progresses(chunks, total, done) == Progresses(chunks[1..], total, done);
        EmptyChunksSkipped(chunks[1..], total, done);
      } else {
        var next := if total == 0 then done else done + |c|;
        assert NonEmpty(chunks) == [c] + rest;
        assert ([c] + rest)[0] == c && ([c] + rest)[1..] == rest;
        assert Progresses(NonEmpty(chunks), total, done) ==
          (if total == 0 then [] else [Progress(Percent(done + |c|, total))]) + Progresses(rest, total, next);
        assert Progresses(chunks, total, done) ==
          (if total == 0 then [] else [Progress(Percent(done + |c|, total))]) + Progresses(chunks[1..], total, next);
        EmptyChunksSkipped(chunks[1..], total, next);
      }
    }
  }

  /** A download that does not fail while streaming is the same with its empty chunks removed. */
  lemma DownloadIgnoresEmptyChunks(answer: Answer, header: Option<string>, canOpen: bool, chunks: seq<Chunk>, dest: string)
    ensures Download(answer, header, canOpen, NonEmpty(chunks), None, dest) == Download(answer, header, canOpen, chunks, None, dest)
  {
    NonEmptyIdempotent(chunks);
    if ContentLength(header).Ok? {
      EmptyChunksSkipped(chunks, ContentLength(header).value, 0);
    }
  }

  /** Every run ends with exactly one of `done` and `fail`, preceded only by progress reports; `done`
      comes exactly when the request answered without error, the length was readable, the file opened
      and the stream did not break. */
  lemma DownloadEnds(answer: Answer, header: Option<string>, canOpen: bool, chunks: seq<Chunk>, failAt: Option<nat>, dest: string)
    ensures var signals := Download(answer, header, canOpen, chunks, failAt, dest).0;
      && signals != []
      && (forall i :: 0 <= i < |signals| - 1 ==> signals[i].Progress?)
      && (signals[|signals| - 1].Done? || signals[|signals| - 1].DownloadFailed?)
      && (signals[|signals| - 1] == Done(dest) <==>
            answer.Status? && !(400 <= answer.code < 600) && ContentLength(header).Ok? && canOpen &&
            (failAt.None? || failAt.value >= |chunks|))
  {
    if answer.Status? && !(400 <= answer.code < 600) && ContentLength(header).Ok? && canOpen {
      var total := ContentLength(header).value;
      var streamed := Streamed(chunks, failAt);
      if total == 0 {
        NoLengthNoProgress(streamed, 0);
      } else {
        ProgressValues(streamed, total, 0);
      }
    }
  }
}
