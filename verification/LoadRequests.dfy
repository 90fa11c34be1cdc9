/**
 What each driver of scripts/load-test.mjs sends and reports, in terms of the
 answers alone: every request in its place, every part once with its own bytes,
 and a verdict that says where the video stopped and why.
 */
module LoadRequests {
  import opened Text
  import opened LoadTest

  predicate IsStarted(video: Video) {
    video.start.status == 201 && video.start.uploadId.Some? && video.start.parts.Some?
  }

  function Parts(video: Video): seq<Part> {
    if video.start.parts.Some? then video.start.parts.value else []
  }

  /** The request at a place: the upload, each part once and in order, at its own
      URL and with its own bytes, the confirmation, then status reads. */
  predicate IsInPlace(r: Request, k: nat, index: nat, video: Video, ctx: Context) {
    var n := |Parts(video)|;
    if k == 0 then r == StartUpload("load-" + NatText(index) + ".mp4")
    else if k <= n then
      var part, size := Parts(video)[k - 1], video.start.partSize;
      r == PutPart(part.url, Subarray(ctx.bytes, (part.number - 1) * size, part.number * size))
    else if k == n + 1 then
      video.start.uploadId.Some?
      && r == Confirm(video.start.uploadId.value, "load-" + (ctx.runId + ("-" + NatText(index))))
    else video.confirm.id.Some? && r == ReadStatus(video.confirm.id.value)
  }

  predicate AllInPlace(sent: seq<Request>, index: nat, video: Video, ctx: Context) {
    forall k :: 0 <= k < |sent| ==> IsInPlace(sent[k], k, index, video, ctx)
  }

  /** The part of the file between two offsets, as far as the file goes. */
  lemma SubarrayIs(bytes: seq<bv8>, from: nat, to: nat)
    ensures var lo, hi := if from < |bytes| then from else |bytes|, if to < |bytes| then to else |bytes|;
      Subarray(bytes, from, to) == if lo < hi then bytes[lo..hi] else []
  {
  }

  // ------------------------------------------------------------- the verdict

  /** What the reads before the given one left as the state. */
  function StateBefore(video: Video, k: nat): Option<string> {
    if k == 0 then video.confirm.state else video.answers(k - 1).state
  }

  /** Why a video ended after `n` requests: the last of them was answered so that
      nothing follows, and all before it so that the next one did. */
  predicate Explains(outcome: Outcome, n: nat, video: Video, ctx: Context) {
    var parts := Parts(video);
    match outcome.problem
    case Some(StartFailed(status)) =>
      n == 1 && status == video.start.status && !IsStarted(video) && outcome.id == None && outcome.state == None
    case Some(PutFailed(number, status)) =>
      IsStarted(video) && 2 <= n <= |parts| + 1 && (forall k: nat :: k < n - 2 ==> video.puts(k) == 200)
      && status == video.puts(n - 2) && status != 200 && number == parts[n - 2].number
      && outcome.id == None && outcome.state == None
    case Some(ConfirmFailed(status)) =>
      IsUploaded(video) && n == |parts| + 2 && status == video.confirm.status
      && (status != 201 || video.confirm.id.None?) && outcome.id == None && outcome.state == None
    case Some(ReadFailed(status)) =>
      EndsAtRead(n, video, ctx) && outcome.id == video.confirm.id
      && var k := n - |parts| - 3;
         status == video.answers(k).status && status != 200 && outcome.state == StateBefore(video, k)
    case Some(Ended(state)) =>
      EndsAtRead(n, video, ctx) && outcome.id == video.confirm.id
      && video.answers(n - |parts| - 3) == ReadAnswer(200, Some("FAILED"))
      && state == Some("FAILED") && outcome.state == Some("FAILED")
    case Some(Still(state)) =>
      EndsAtRead(n, video, ctx) && outcome.id == video.confirm.id
      && var k := n - |parts| - 3;
         video.answers(k) == ReadAnswer(200, state) && state != Some("FAILED") && state != Some("COMPLETED")
         && video.clock(k) >= video.started + ctx.timeoutMs && outcome.state == state
    case None =>
      EndsAtRead(n, video, ctx) && outcome.id == video.confirm.id
      && video.answers(n - |parts| - 3) == ReadAnswer(200, Some("COMPLETED")) && outcome.state == Some("COMPLETED")
  }

  /** The last of `n` requests is a status read that follows reads that all said to
      go on, in time. */
  predicate EndsAtRead(n: nat, video: Video, ctx: Context) {
    Confirmed(video) && n >= |Parts(video)| + 3 && NoneTerminal(video, ctx, n - |Parts(video)| - 3)
  }

  /** How far a driver is, by the number of its requests. */
  predicate IsAtPlace(d: Driver, video: Video, ctx: Context) {
    match d.phase
    case Starting => d.sent == []
    case Putting(uploadId, parts, next) =>
      IsStarted(video) && video.start.uploadId == Some(uploadId) && parts == Parts(video)
      && next <= |parts| && |d.sent| == next + 1 && (forall k: nat :: k < next ==> video.puts(k) == 200)
    case Polling(id, polls, state) => IsReading(d, id, polls, state, video, ctx)
    case Sleeping(id, polls, state) => IsReading(d, id, polls, state, video, ctx)
    case Finished(outcome) => outcome.index == d.index && Explains(outcome, |d.sent|, video, ctx)
  }

  predicate IsReading(d: Driver, id: string, polls: nat, state: Option<string>, video: Video, ctx: Context) {
    Confirmed(video) && video.confirm.id == Some(id) && |d.sent| == |Parts(video)| + 2 + polls
    && state == StateBefore(video, polls) && NoneTerminal(video, ctx, polls)
  }

  lemma TurnInPlace(d: Driver, video: Video, ctx: Context)
    requires IsAtPlace(d, video, ctx) && AllInPlace(d.sent, d.index, video, ctx)
    ensures AllInPlace(Turn(d, video, ctx).sent, d.index, video, ctx)
  {
    hide NatText, Subarray, NoneTerminal, Judge, Explains;
  }

  lemma ReadAtPlace(d: Driver, video: Video, ctx: Context)
    requires d.phase.Polling? && IsAtPlace(d, video, ctx)
    ensures IsAtPlace(Turn(d, video, ctx), video, ctx)
  {
    var polls := d.phase.polls;
    assert video.answers(polls) == ReadAnswer(video.answers(polls).status, video.answers(polls).state);
  }

  lemma TurnAtPlace(d: Driver, video: Video, ctx: Context)
    requires IsAtPlace(d, video, ctx)
    ensures IsAtPlace(Turn(d, video, ctx), video, ctx) && Turn(d, video, ctx).index == d.index
  {
    if d.phase.Polling? {
      ReadAtPlace(d, video, ctx);
    } else {
      hide FileName, IdempotencyKey, Body, Judge;
    }
  }

  lemma {:induction false} TurnsInPlace(index: nat, video: Video, ctx: Context, n: nat)
    ensures var d := Turns(Begin(index), video, ctx, n);
      d.index == index && IsAtPlace(d, video, ctx) && AllInPlace(d.sent, index, video, ctx)
  {
    hide IsAtPlace, AllInPlace, Turn;
    if n == 0 {
      NothingSent(index, video, ctx);
    } else {
      TurnsInPlace(index, video, ctx, n - 1);
      var d := Turns(Begin(index), video, ctx, n - 1);
      TurnInPlace(d, video, ctx);
      TurnAtPlace(d, video, ctx);
    }
  }

  lemma NothingSent(index: nat, video: Video, ctx: Context)
    ensures IsAtPlace(Begin(index), video, ctx) && AllInPlace(Begin(index).sent, index, video, ctx)
  {
  }

  /** At every moment of every interleaving, each driver has sent its requests in
      their places and is where their number says; a finished one reports the one
      reason its video's answers give. */
  lemma EveryDriverInPlace(videos: seq<Video>, ctx: Context, schedule: seq<nat>, i: nat)
    requires IsSchedule(schedule, |videos|) && i < |videos|
    ensures var d := Interleave(BeginAll(|videos|), videos, ctx, schedule)[i];
      d.index == i + 1 && IsAtPlace(d, videos[i], ctx) && AllInPlace(d.sent, i + 1, videos[i], ctx)
  {
    hide Turns, Interleave, CountOf, IsAtPlace, AllInPlace;
    OwnTurnsOnly(BeginAll(|videos|), videos, ctx, schedule, i);
    TurnsInPlace(i + 1, videos[i], ctx, CountOf(schedule, i));
  }

  // -------------------------------------------------------- what was uploaded

  function BodyOf(r: Request): seq<bv8> { if r.PutPart? then r.body else [] }

  /** The bodies of all PUTs, in the order sent. */
  function Uploaded(sent: seq<Request>): seq<bv8> {
    if sent == [] then [] else Uploaded(sent[..|sent| - 1]) + BodyOf(sent[|sent| - 1])
  }

  /** The parts among the first requests, the upload's start not counted. */
  function PartsSent(sent: seq<Request>, video: Video): nat {
    if |sent| == 0 then 0 else if |sent| - 1 < |Parts(video)| then |sent| - 1 else |Parts(video)|
  }

  lemma BodyInPlace(r: Request, k: nat, index: nat, video: Video, ctx: Context)
    requires IsInPlace(r, k, index, video, ctx)
    ensures BodyOf(r)
         == if 1 <= k <= |Parts(video)| then Body(Parts(video)[k - 1], video.start.partSize, ctx.bytes) else []
  {
    hide NatText, Subarray;
  }

  lemma UploadedLast(sent: seq<Request>)
    ensures Uploaded(sent) == if sent == [] then [] else Uploaded(sent[..|sent| - 1]) + BodyOf(sent[|sent| - 1])
  {
    hide BodyOf;
  }

  lemma BodiesLast(parts: seq<Part>, n: nat, size: int, bytes: seq<bv8>)
    requires n <= |parts|
    ensures Bodies(parts, n, size, bytes)
         == if n == 0 then [] else Bodies(parts, n - 1, size, bytes) + Body(parts[n - 1], size, bytes)
  {
    hide Body;
  }

  lemma PlacesBefore(sent: seq<Request>, index: nat, video: Video, ctx: Context)
    requires sent != [] && AllInPlace(sent, index, video, ctx)
    ensures AllInPlace(sent[..|sent| - 1], index, video, ctx)
    ensures IsInPlace(sent[|sent| - 1], |sent| - 1, index, video, ctx)
  {
    hide IsInPlace;
  }

  lemma {:induction false} UploadedSoFar(sent: seq<Request>, index: nat, video: Video, ctx: Context)
    requires AllInPlace(sent, index, video, ctx)
    ensures Uploaded(sent) == Bodies(Parts(video), PartsSent(sent, video), video.start.partSize, ctx.bytes)
  {
    hide Uploaded, Bodies, AllInPlace, IsInPlace, Body, BodyOf, Parts;
    UploadedLast(sent);
    BodiesLast(Parts(video), PartsSent(sent, video), video.start.partSize, ctx.bytes);
    if sent == [] {
    } else {
      var before := sent[..|sent| - 1];
      PlacesBefore(sent, index, video, ctx);
      UploadedSoFar(before, index, video, ctx);
      BodyInPlace(sent[|sent| - 1], |sent| - 1, index, video, ctx);
      assert Uploaded(before) + [] == Uploaded(before);
    }
  }

  /** A driver that has sent its confirmation has sent the whole file, when the parts
      are numbered in order and cover it. */
  lemma UploadedIsTheFile(index: nat, video: Video, ctx: Context, n: nat)
    requires video.start.partSize > 0 && forall k :: 0 <= k < |Parts(video)| ==> Parts(video)[k].number == k + 1
    requires |Parts(video)| * video.start.partSize >= |ctx.bytes|
    ensures var d := Turns(Begin(index), video, ctx, n);
      (exists r :: r in d.sent && r.Confirm?) ==> Uploaded(d.sent) == ctx.bytes
  {
    hide Turns, Bodies, NatText, Subarray, Uploaded, IsAtPlace;
    var d := Turns(Begin(index), video, ctx, n);
    TurnsInPlace(index, video, ctx, n);
    if r :| r in d.sent && r.Confirm? {
      var k :| 0 <= k < |d.sent| && d.sent[k] == r;
      assert IsInPlace(r, k, index, video, ctx);
      assert k == |Parts(video)| + 1;
      UploadedSoFar(d.sent, index, video, ctx);
      BodiesAreTheFile(Parts(video), video.start.partSize, ctx.bytes);
    }
  }
}
