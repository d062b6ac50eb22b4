/** A download that resumes from endpoint to endpoint into one sink
    (client/handle_http.go, downloadObject and downloadHTTP). */
module ResumeDownload {
  import opened Collections

  /** How the body of a response ended: in order, or broken off by a read error, a stall,
      a crawl, a cancellation or an error trailer. */
  datatype Ending = Clean | Broken

  /** The HEAD request made when a response left the size open. */
  datatype Head = HeadFails | Head(etag: string, length: Option<int>)

  /** What an endpoint answers: nothing usable (no connection, or a failure status), or a
      200 or 206 with its headers (-1 for an absent Content-Length, the total of its
      Content-Range) and the bytes that arrive. */
  datatype Reply =
    | NoBody
    | Body(status: int, etag: string, contentLength: int, total: Option<int>, head: Head,
           bytes: seq<byte>, ending: Ending)

  /** A GET from `start`, up to and including `end` unless that is -1. */
  datatype Request = Request(start: nat, end: int)

  predicate Ranged(q: Request) {
    q.start > 0 || q.end >= 0
  }

  /** One attempt's endpoint: its answer to any request. */
  type Endpoint = Request -> Reply

  // ----- One attempt -----

  /** The size a response is checked against, before asking with HEAD. */
  function DeclaredTotal(r: Reply, q: Request): int
    requires r.Body?
  {
    if r.status == 206 && Ranged(q) then
      if q.end >= 0 then q.end + 1
      else if r.contentLength < 0 then
        (if r.total.Some? && r.total.value > 0 then r.total.value else r.contentLength)
      else r.contentLength + q.start
    else r.contentLength
  }

  predicate TagsConflict(a: string, b: string) {
    a != "" && b != "" && a != b
  }

  predicate HeadMissing(r: Reply, q: Request)
    requires r.Body?
  {
    DeclaredTotal(r, q) <= 0 && r.head.HeadFails?
  }

  function TotalSize(r: Reply, q: Request): int
    requires r.Body? && !HeadMissing(r, q)
  {
    if DeclaredTotal(r, q) > 0 || TagsConflict(r.head.etag, r.etag) || r.head.length.None? then DeclaredTotal(r, q)
    else r.head.length.value
  }

  function Written(r: Reply, q: Request): seq<byte> {
    if r.NoBody? || HeadMissing(r, q) then [] else r.bytes
  }

  function TagOf(r: Reply): string {
    if r.NoBody? then "" else r.etag
  }

  /** Whether an attempt succeeds; `onDisk` is the size of the destination file, if the
      destination is one. */
  predicate Succeeds(r: Reply, q: Request, onDisk: Option<nat>) {
    && r.Body? && !HeadMissing(r, q) && r.ending == Clean
    && (TotalSize(r, q) > 0 ==>
          && q.start + |r.bytes| == TotalSize(r, q)
          && (onDisk.Some? ==> onDisk.value == TotalSize(r, q)))
  }

  /** Where downloaded bytes go; `isFile` says whether the result is a file on disk. */
  class Sink {
    var contents: seq<byte>
    const isFile: bool

    constructor (isFile: bool)
      ensures contents == [] && this.isFile == isFile
    {
      contents := [];
      this.isFile := isFile;
    }

    method Write(data: seq<byte>)
      modifies this
      ensures contents == old(contents) + data
    {
      contents := contents + data;
    }

    function SizeOnDisk(): Option<nat>
      reads this
    {
      if isFile then Some(|contents|) else None
    }
  }

  /** downloadHTTP: one request, its body copied to the sink, and the size checks. */
  method DownloadHttp(sink: Sink, endpoint: Endpoint, q: Request) returns (downloaded: nat, etag: string, ok: bool)
    modifies sink
    ensures sink.contents == old(sink.contents) + Written(endpoint(q), q)
    ensures downloaded == |Written(endpoint(q), q)| && etag == TagOf(endpoint(q))
    ensures ok == Succeeds(endpoint(q), q, sink.SizeOnDisk())
  {
    var r := endpoint(q);
    if r.NoBody? {
      return 0, "", false;
    }
    etag := r.etag;
    var totalSize := r.contentLength;
    if r.status == 206 && (q.start > 0 || q.end >= 0) {
      var objectSize := if r.total.Some? then r.total.value else -1;
      if q.end >= 0 {
        totalSize := q.end + 1;
      } else if totalSize < 0 {
        if objectSize > 0 {
          totalSize := objectSize;
        }
      } else {
        totalSize := totalSize + q.start;
      }
    }
    if totalSize <= 0 {
      if r.head.HeadFails? {
        return 0, etag, false;
      }
      if !(r.head.etag != "" && r.etag != "" && r.head.etag != r.etag) && r.head.length.Some? {
        totalSize := r.head.length.value;
      }
    }
    sink.Write(r.bytes);
    downloaded := |r.bytes|;
    if r.ending == Broken {
      return downloaded, etag, false;
    }
    if totalSize > 0 {
      if q.start + downloaded != totalSize {
        return downloaded, etag, false;
      }
      var onDisk := sink.SizeOnDisk();
      if onDisk.Some? && onDisk.value != totalSize {
        return downloaded, etag, false;
      }
    }
    ok := true;
  }

  // ----- All attempts -----

  datatype Verdict = Trying | Succeeded | Modified | Overrun

  datatype Progress = Progress(downloaded: nat, contents: seq<byte>, etag: string, verdict: Verdict)

  /** The range asked for, the size the probes reported, and the kind of destination. */
  datatype Job = Job(start: nat, end: int, size: int, isFile: bool)

  function NextRequest(job: Job, p: Progress): Request {
    Request(job.start + p.downloaded, job.end)
  }

  /** One attempt more. */
  function Attempted(job: Job, p: Progress, endpoint: Endpoint): Progress {
    var q := NextRequest(job, p);
    var r := endpoint(q);
    var contents := p.contents + Written(r, q);
    if TagsConflict(TagOf(r), p.etag) then Progress(p.downloaded, contents, p.etag, Modified)
    else
      var downloaded := p.downloaded + |Written(r, q)|;
      var etag := if p.etag == "" then TagOf(r) else p.etag;
      var ok := Succeeds(r, q, if job.isFile then Some(|contents|) else None);
      Progress(downloaded, contents, etag,
               if ok then Succeeded else if job.size > 0 && downloaded == job.size then Overrun else Trying)
  }

  /** The state after the attempts, the loop leaving as soon as there is a verdict. */
  function After(job: Job, attempts: seq<Endpoint>): Progress {
    if attempts == [] then Progress(0, [], "", Trying)
    else
      var p := After(job, attempts[..|attempts| - 1]);
      if p.verdict != Trying then p else Attempted(job, p, attempts[|attempts| - 1])
  }

  /** The body of the loop of downloadObject. */
  method Attempt(job: Job, sink: Sink, endpoint: Endpoint, downloaded: nat, etag: string)
    returns (downloaded': nat, etag': string, verdict: Verdict)
    requires sink.isFile == job.isFile
    modifies sink
    ensures Progress(downloaded', sink.contents, etag', verdict)
         == Attempted(job, Progress(downloaded, old(sink.contents), etag, Trying), endpoint)
  {
    var got, tag, ok := DownloadHttp(sink, endpoint, Request(job.start + downloaded, job.end));
    etag' := etag;
    if tag != "" {
      if etag == "" {
        etag' := tag;
      } else if etag != tag {
        return downloaded, etag, Modified;
      }
    }
    downloaded' := downloaded + got;
    if ok {
      verdict := Succeeded;
    } else if job.size > 0 && downloaded' == job.size {
      verdict := Overrun;
    } else {
      verdict := Trying;
    }
  }

  /** The loop of downloadObject. */
  method DownloadObject(job: Job, sink: Sink, attempts: seq<Endpoint>)
    returns (downloaded: nat, etag: string, success: bool)
    requires sink.contents == [] && sink.isFile == job.isFile
    modifies sink
    ensures var p := After(job, attempts);
      sink.contents == p.contents && downloaded == p.downloaded && etag == p.etag && success == p.verdict.Succeeded?
  {
    downloaded, etag, success := 0, "", false;
    var verdict := Trying;
    var i := 0;
    while i < |attempts| && verdict == Trying
      invariant i <= |attempts|
      invariant After(job, attempts[..i]) == Progress(downloaded, sink.contents, etag, verdict)
    {
      OneMore(job, attempts, i);
      downloaded, etag, verdict := Attempt(job, sink, attempts[i], downloaded, etag);
      i := i + 1;
    }
    success := verdict == Succeeded;
    VerdictStays(job, attempts, i);
  }

  lemma OneMore(job: Job, attempts: seq<Endpoint>, i: nat)
    requires i < |attempts| && After(job, attempts[..i]).verdict == Trying
    ensures After(job, attempts[..i + 1]) == Attempted(job, After(job, attempts[..i]), attempts[i])
  {
    assert attempts[..i + 1][..i] == attempts[..i];
  }

  lemma {:induction false} VerdictStays(job: Job, attempts: seq<Endpoint>, i: nat)
    requires i <= |attempts| && (After(job, attempts[..i]).verdict != Trying || i == |attempts|)
    ensures After(job, attempts) == After(job, attempts[..i])
  {
    if i < |attempts| {
      var n := |attempts| - 1;
      assert attempts[..n][..i] == attempts[..i];
      VerdictStays(job, attempts[..n], i);
    } else {
      assert attempts[..i] == attempts;
    }
  }

  // ----- Honest endpoints -----

  /** The part of an object a request asks for. */
  function Wanted(content: seq<byte>, q: Request): seq<byte>
    requires q.start <= |content| && (q.end >= 0 ==> q.start <= q.end)
  {
    if q.end >= 0 && q.end < |content| then content[q.start..q.end + 1] else content[q.start..]
  }

  /** The hypothesis on an endpoint's answer: 206 to a Range header that can be
      satisfied (section 15.3.7 of RFC 9110), no body to one that cannot (section
      15.5.17), and 200 without one; bytes of the part asked for, from its first on; and
      lengths, where given, that are right. A body without a length ends cleanly only
      when complete. */
  predicate Honest(r: Reply, q: Request, content: seq<byte>) {
    r.Body? ==>
      && (if Ranged(q) then r.status == 206 && q.start < |content| && (q.end >= 0 ==> q.start <= q.end)
          else r.status == 200)
      && r.bytes <= Wanted(content, q)
      && (r.contentLength == -1 || r.contentLength == |Wanted(content, q)|)
      && (r.total.Some? ==> r.total.value == |content|)
      && (r.head.Head? && r.head.length.Some? && !TagsConflict(r.head.etag, r.etag) ==>
            r.head.length.value == |content|)
      && (r.contentLength == -1 && r.ending == Clean ==> r.bytes == Wanted(content, q))
  }

  /** Every answer with the download's own ETag, or without one, is an honest answer for
      the object. Answers with another ETag may be anything. */
  ghost predicate Serve(attempts: seq<Endpoint>, content: seq<byte>, tag: string) {
    forall i, q :: 0 <= i < |attempts| ==> Answers(attempts[i], q, content, tag)
  }

  predicate Answers(endpoint: Endpoint, q: Request, content: seq<byte>, tag: string) {
    TagOf(endpoint(q)) == "" || TagOf(endpoint(q)) == tag ==> Honest(endpoint(q), q, content)
  }

  /** Against an honest answer, an attempt succeeds exactly when the whole rest of the
      range arrives in order, a range with an end lies inside the object, the HEAD was
      not needed in vain, and a destination on disk has the size of the object up to
      there. */
  lemma SuccessIsCompleteness(r: Reply, q: Request, content: seq<byte>, onDisk: Option<nat>)
    requires Honest(r, q, content)
    ensures Succeeds(r, q, onDisk) <==>
      && r.Body? && !HeadMissing(r, q) && r.ending == Clean
      && r.bytes == Wanted(content, q) && q.end < |content|
      && (onDisk.Some? && TotalSize(r, q) > 0 ==> onDisk.value == q.start + |r.bytes|)
  {
  }

  // ----- Theorems -----

  /** What is in the sink while nothing went wrong with the object's version. */
  predicate Holds(job: Job, p: Progress, content: seq<byte>) {
    job.start + p.downloaded <= |content| && p.contents == content[job.start..job.start + p.downloaded]
  }

  lemma {:induction false} TagIsKept(job: Job, attempts: seq<Endpoint>, k: nat)
    requires k <= |attempts|
    ensures After(job, attempts[..k]).etag in {"", After(job, attempts).etag}
  {
    if k == |attempts| {
      assert attempts[..k] == attempts;
    } else {
      var n := |attempts| - 1;
      assert attempts[..n][..k] == attempts[..k];
      TagIsKept(job, attempts[..n], k);
    }
  }

  lemma WrittenContinues(r: Reply, q: Request, content: seq<byte>)
    requires Honest(r, q, content) && r.Body? && q.start <= |content|
    ensures q.start + |Written(r, q)| <= |content| && Written(r, q) == content[q.start..q.start + |Written(r, q)|]
  {
    assert Wanted(content, q) <= content[q.start..];
  }

  lemma SliceGrows(content: seq<byte>, from: nat, at: nat, more: seq<byte>)
    requires from <= at && at + |more| <= |content| && more == content[at..at + |more|]
    ensures content[from..at] + more == content[from..at + |more|]
  {
  }

  lemma WrittenHolds(job: Job, p: Progress, r: Reply, q: Request, content: seq<byte>)
    requires Holds(job, p, content) && q.start == job.start + p.downloaded
    requires Honest(r, q, content)
    ensures var n := p.downloaded + |Written(r, q)|;
      job.start + n <= |content| && p.contents + Written(r, q) == content[job.start..job.start + n]
  {
    if r.Body? {
      WrittenContinues(r, q, content);
      SliceGrows(content, job.start, q.start, Written(r, q));
    }
  }

  lemma AttemptHolds(job: Job, p: Progress, endpoint: Endpoint, content: seq<byte>, tag: string)
    requires p.verdict == Trying && Holds(job, p, content) && p.etag in {"", tag}
    requires Attempted(job, p, endpoint).etag in {"", tag}
    requires Answers(endpoint, NextRequest(job, p), content, tag)
    ensures var t := Attempted(job, p, endpoint);
      && (t.verdict != Modified ==> Holds(job, t, content))
      && (t.verdict == Succeeded ==>
            job.end < |content| && job.start + t.downloaded == if job.end >= 0 then job.end + 1 else |content|)
      && (t.verdict == Modified ==> t.downloaded == p.downloaded && Holds(job, p, content) && p.contents <= t.contents)
  {
    var q := NextRequest(job, p);
    var r := endpoint(q);
    var t := Attempted(job, p, endpoint);
    if t.verdict != Modified {
      WrittenHolds(job, p, r, q, content);
      SuccessIsCompleteness(r, q, content, if job.isFile then Some(|t.contents|) else None);
    }
  }

  /** After any sequence of attempts the sink holds exactly the object's bytes from the
      start of the range on, each once; only a detected change of version leaves more
      behind, and is never a success. Success means the whole requested range. */
  lemma SinkHoldsTheRange(job: Job, attempts: seq<Endpoint>, content: seq<byte>)
    requires job.start <= |content|
    requires Serve(attempts, content, After(job, attempts).etag)
    ensures var p := After(job, attempts);
      && (p.verdict != Modified ==> Holds(job, p, content))
      && (p.verdict == Modified ==>
            job.start + p.downloaded <= |content| && content[job.start..job.start + p.downloaded] <= p.contents)
      && (p.verdict == Succeeded ==>
            && job.end < |content| && (job.end >= 0 ==> job.start <= job.end + 1)
            && p.contents == if job.end >= 0 then content[job.start..job.end + 1] else content[job.start..])
  {
    HoldsAfter(job, attempts, content, After(job, attempts).etag);
  }

  lemma {:induction false} HoldsAfter(job: Job, attempts: seq<Endpoint>, content: seq<byte>, tag: string)
    requires job.start <= |content| && Serve(attempts, content, tag)
    requires After(job, attempts).etag in {"", tag}
    ensures var p := After(job, attempts);
      && (p.verdict != Modified ==> Holds(job, p, content))
      && (p.verdict == Modified ==>
            job.start + p.downloaded <= |content| && content[job.start..job.start + p.downloaded] <= p.contents)
      && (p.verdict == Succeeded ==>
            job.end < |content| && job.start + p.downloaded == if job.end >= 0 then job.end + 1 else |content|)
  {
    if attempts != [] {
      var n := |attempts| - 1;
      var before := attempts[..n];
      TagIsKept(job, attempts, n);
      assert forall i :: 0 <= i < n ==> before[i] == attempts[i];
      HoldsAfter(job, before, content, tag);
      var p := After(job, before);
      if p.verdict == Trying {
        assert Answers(attempts[n], NextRequest(job, p), content, tag);
        AttemptHolds(job, p, attempts[n], content, tag);
      }
    }
  }

  /** The answer to the request that attempt `k` makes. */
  function AnswerTo(job: Job, attempts: seq<Endpoint>, k: nat): Reply
    requires k < |attempts|
  {
    attempts[k](NextRequest(job, After(job, attempts[..k])))
  }

  /** A success saw one version only: every answer tried had the recorded ETag or none. */
  lemma {:induction false} SuccessHasOneVersion(job: Job, attempts: seq<Endpoint>, k: nat)
    requires k < |attempts| && After(job, attempts).verdict == Succeeded
    requires After(job, attempts[..k]).verdict == Trying
    ensures var r := AnswerTo(job, attempts, k); r.Body? ==> r.etag == "" || r.etag == After(job, attempts).etag
  {
    var n := |attempts| - 1;
    if k < n {
      assert attempts[..n][..k] == attempts[..k];
      if After(job, attempts[..n]).verdict == Trying {
        OneMore(job, attempts, k);
        TriedBefore(job, attempts, k);
      } else {
        SuccessHasOneVersion(job, attempts[..n], k);
      }
    }
  }

  /** Two attempts whose answers carry different ETags never end in success. */
  lemma DifferentVersionsNeverSucceed(job: Job, attempts: seq<Endpoint>, j: nat, k: nat)
    requires j < |attempts| && k < |attempts|
    requires After(job, attempts[..j]).verdict == Trying && After(job, attempts[..k]).verdict == Trying
    requires var a, b := AnswerTo(job, attempts, j), AnswerTo(job, attempts, k);
      a.Body? && b.Body? && a.etag != "" && b.etag != "" && a.etag != b.etag
    ensures After(job, attempts).verdict != Succeeded
  {
    if After(job, attempts).verdict == Succeeded {
      SuccessHasOneVersion(job, attempts, j);
      SuccessHasOneVersion(job, attempts, k);
    }
  }

  /** While the loop goes on, every answer so far had the recorded ETag or none. */
  lemma {:induction false} TriedBefore(job: Job, attempts: seq<Endpoint>, k: nat)
    requires k + 1 < |attempts| && After(job, attempts[..|attempts| - 1]).verdict == Trying
    ensures After(job, attempts[..k]).verdict == Trying && After(job, attempts[..k + 1]).verdict == Trying
    ensures TagOf(attempts[k](NextRequest(job, After(job, attempts[..k])))) in {"", After(job, attempts[..k + 1]).etag}
    ensures After(job, attempts[..k + 1]).etag in {"", After(job, attempts).etag}
  {
    StillTrying(job, attempts, k);
    StillTrying(job, attempts, k + 1);
    OneMore(job, attempts, k);
    TagIsKept(job, attempts, k + 1);
  }

  lemma StillTrying(job: Job, attempts: seq<Endpoint>, k: nat)
    requires k < |attempts| && After(job, attempts[..|attempts| - 1]).verdict == Trying
    ensures After(job, attempts[..k]).verdict == Trying
  {
    var before := attempts[..|attempts| - 1];
    assert before[..k] == attempts[..k];
    if After(job, before[..k]).verdict != Trying {
      VerdictStays(job, before, k);
    }
  }

  /** A range that does not begin at the object's start never succeeds into a file on
      disk once a response says how long it is: the file is compared with the end of the
      range, not with its length. */
  lemma RangeIntoFileFails(job: Job, p: Progress, endpoint: Endpoint)
    requires job.isFile && job.start > 0 && p.verdict == Trying && |p.contents| == p.downloaded
    requires var q := NextRequest(job, p);
      endpoint(q).Body? && !HeadMissing(endpoint(q), q) && TotalSize(endpoint(q), q) > 0
    ensures Attempted(job, p, endpoint).verdict != Succeeded
  {
    var q := NextRequest(job, p);
    assert Written(endpoint(q), q) == endpoint(q).bytes;
  }

  /** Of a complete and honest answer only the destination can make a failure: into a
      stream it succeeds, into a file exactly when the range begins at the object's
      start or nothing says how long it is. */
  lemma CompleteAnswerSucceedsExactlyWhen(job: Job, p: Progress, endpoint: Endpoint, content: seq<byte>)
    requires p.verdict == Trying && |p.contents| == p.downloaded
    requires var q := NextRequest(job, p); var r := endpoint(q);
      && Honest(r, q, content) && r.Body? && !HeadMissing(r, q) && !TagsConflict(r.etag, p.etag)
      && r.ending == Clean && r.bytes == Wanted(content, q) && job.end < |content|
    ensures Attempted(job, p, endpoint).verdict == Succeeded <==>
      var q := NextRequest(job, p); !job.isFile || job.start == 0 || TotalSize(endpoint(q), q) <= 0
  {
    var q := NextRequest(job, p);
    var r := endpoint(q);
    SuccessIsCompleteness(r, q, content, if job.isFile then Some(|p.contents + r.bytes|) else None);
  }

  /** Such an answer exists for every range of every object: an ordinary 206 with its
      Content-Length. */
  lemma OrdinaryRangeFailsIntoFile(job: Job, content: seq<byte>, etag: string)
    requires 0 < job.start < |content| && (job.end == -1 || job.start <= job.end < |content|)
    ensures var q := Request(job.start, job.end);
      var r := Body(206, etag, |Wanted(content, q)|, Some(|content|), HeadFails, Wanted(content, q), Clean);
      && Honest(r, q, content)
      && After(job.(isFile := false), [_ => r]).verdict == Succeeded
      && After(job.(isFile := true), [_ => r]).verdict != Succeeded
  {
    var q := Request(job.start, job.end);
    var r := Body(206, etag, |Wanted(content, q)|, Some(|content|), HeadFails, Wanted(content, q), Clean);
    var start := Progress(0, [], "", Trying);
    CompleteAnswerSucceedsExactlyWhen(job.(isFile := false), start, _ => r, content);
    CompleteAnswerSucceedsExactlyWhen(job.(isFile := true), start, _ => r, content);
    var one: seq<Endpoint> := [_ => r];
    assert one[..0] == [];
  }

  // ----- What decides -----

  /** With this size known, an attempt succeeds exactly when the bytes reach it and the
      file on disk has it. */
  predicate DecidedBy(r: Reply, q: Request, onDisk: Option<nat>, size: int)
    requires r.Body?
  {
    Succeeds(r, q, onDisk) <==> q.start + |r.bytes| == size && (onDisk.Some? ==> onDisk.value == size)
  }

  /** Which size an answer that did not break off is held against: the end of a bounded
      range, the range's length behind its start, the total of its Content-Range, or its
      own Content-Length. */
  lemma HeadersDecide(r: Reply, q: Request, onDisk: Option<nat>)
    requires r.Body? && r.ending == Clean && r.contentLength >= -1
    ensures r.status == 206 && q.end >= 0 ==> DecidedBy(r, q, onDisk, q.end + 1)
    ensures r.status == 206 && q.end < 0 && q.start > 0 && r.contentLength >= 0 ==>
      DecidedBy(r, q, onDisk, r.contentLength + q.start)
    ensures (r.status == 206 && q.end < 0 && q.start > 0 && r.contentLength == -1
             && r.total.Some? && r.total.value > 0) ==>
      DecidedBy(r, q, onDisk, r.total.value)
    ensures r.status != 206 && r.contentLength > 0 ==> DecidedBy(r, q, onDisk, r.contentLength)
  {
  }

  /** When the headers say nothing, the HEAD does: if it fails so does the attempt, with
      nothing written; its Content-Length is the size unless it speaks of another version;
      and without one the attempt succeeds with what came. */
  lemma HeadDecides(r: Reply, q: Request, onDisk: Option<nat>)
    requires r.Body? && r.ending == Clean && r.contentLength == -1
    requires r.status != 206 || (q.start > 0 && q.end < 0 && (r.total.None? || r.total.value <= 0))
    ensures r.head.HeadFails? ==> !Succeeds(r, q, onDisk) && Written(r, q) == []
    ensures r.head.Head? ==> Written(r, q) == r.bytes
    ensures (r.head.Head? && r.head.length.Some? && r.head.length.value > 0
             && (r.head.etag == "" || r.etag == "" || r.head.etag == r.etag)) ==>
      DecidedBy(r, q, onDisk, r.head.length.value)
    ensures r.head.Head? && (r.head.length.None? || (r.head.etag != "" && r.etag != "" && r.head.etag != r.etag)) ==>
      Succeeds(r, q, onDisk)
  {
  }

  /** An attempt that breaks off, or that has no body, is never a success. Whatever came is
      kept and counted, and the recorded ETag is the first that was seen. */
  lemma AttemptKeepsWhatCame(job: Job, p: Progress, endpoint: Endpoint)
    ensures var r := endpoint(NextRequest(job, p)); var t := Attempted(job, p, endpoint);
      && NextRequest(job, p) == Request(job.start + p.downloaded, job.end)
      && (r.NoBody? ==> t == p.(verdict := t.verdict) && t.verdict != Succeeded && t.verdict != Modified)
      && (r.Body? && r.ending == Broken ==> t.verdict != Succeeded)
      && (r.Body? && r.etag != "" && p.etag != "" && r.etag != p.etag <==> t.verdict == Modified)
      && (r.Body? && !HeadMissing(r, NextRequest(job, p)) ==> t.contents == p.contents + r.bytes)
      && (t.verdict == Modified ==> t.downloaded == p.downloaded && t.etag == p.etag)
      && (r.Body? && t.verdict != Modified && !HeadMissing(r, NextRequest(job, p)) ==>
            && t.downloaded == p.downloaded + |r.bytes|
            && t.etag == if p.etag == "" then r.etag else p.etag)
  {
  }

  /** The loop does not go on once it has as many bytes as the object is long, or once an
      attempt succeeded or met another version. */
  lemma LoopStops(job: Job, attempts: seq<Endpoint>, more: Endpoint)
    requires attempts != []
    ensures job.size > 0 && After(job, attempts).downloaded == job.size ==> After(job, attempts).verdict != Trying
    ensures After(job, attempts).verdict != Trying ==> After(job, attempts + [more]) == After(job, attempts)
    ensures After(job, attempts).verdict == Trying ==>
      After(job, attempts + [more]) == Attempted(job, After(job, attempts), more)
  {
    assert (attempts + [more])[..|attempts|] == attempts;
  }

  // ----- Ranges that are ignored -----

  /** A 200 with the whole object, whatever was asked for; lengths, where given, are
      right. */
  predicate IgnoresRange(r: Reply, content: seq<byte>) {
    && r.Body? && r.status == 200 && r.bytes == content && r.ending == Clean
    && (r.contentLength == -1 || r.contentLength == |content|)
    && (r.head.Head? && r.head.length.Some? ==> r.head.length.value == |content|)
  }

  /** When all of a bounded range arrived and the attempt failed nevertheless, the next
      request asks for less than nothing. A server that ignores such a range has the
      whole object appended to it, and this is taken for a success exactly when nothing
      says how long the answer is. */
  lemma IgnoredRangeIsAppended(job: Job, p: Progress, endpoint: Endpoint, content: seq<byte>)
    requires p.verdict == Trying && Holds(job, p, content) && content != []
    requires job.end >= 0 && job.start + p.downloaded == job.end + 1
    requires var r := endpoint(NextRequest(job, p));
      IgnoresRange(r, content) && !HeadMissing(r, NextRequest(job, p)) && !TagsConflict(r.etag, p.etag)
    ensures var q := NextRequest(job, p); var t := Attempted(job, p, endpoint);
      && q.start > q.end
      && t.contents == content[job.start..job.end + 1] + content
      && (t.verdict == Succeeded <==> TotalSize(endpoint(q), q) <= 0)
  {
  }

  /** Such a download exists for every bounded range of every object that is not the
      whole of it: the range arrives, its connection breaks off behind it, and the next
      endpoint sends the object without a length. */
  lemma IgnoredRangeSpoilsSink(job: Job, content: seq<byte>, etag: string)
    requires job.start <= job.end < |content| && job.size != job.end + 1 - job.start
    ensures var q := Request(job.start, job.end);
      var first := Body(206, etag, |Wanted(content, q)|, Some(|content|), HeadFails, Wanted(content, q), Broken);
      var second := Body(200, etag, -1, None, Head(etag, None), content, Clean);
      && Honest(first, q, content) && IgnoresRange(second, content)
      && After(job, [_ => first, _ => second]).verdict == Succeeded
      && After(job, [_ => first, _ => second]).contents == content[job.start..job.end + 1] + content
  {
    var q := Request(job.start, job.end);
    var first := Body(206, etag, |Wanted(content, q)|, Some(|content|), HeadFails, Wanted(content, q), Broken);
    var second := Body(200, etag, -1, None, Head(etag, None), content, Clean);
    var both: seq<Endpoint> := [_ => first, _ => second];
    var start := Progress(0, [], "", Trying);
    assert both[..1][..0] == [];
    assert After(job, both[..1]) == Attempted(job, start, both[0]);
    assert Wanted(content, q) == content[job.start..job.end + 1];
    IgnoredRangeIsAppended(job, After(job, both[..1]), both[1], content);
  }
}
