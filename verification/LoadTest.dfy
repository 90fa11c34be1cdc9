/**
 The concurrent load driver of scripts/load-test.mjs: one state machine a video,
 any interleaving of them, and the report computed from their results. Every
 await of a driver, an HTTP answer or a sleep, ends one turn.
 */
module LoadTest {
  import opened Polling
  import opened Text

  // ---------------------------------------------------------------- answers

  datatype Part = Part(number: int, url: string)

  datatype StartAnswer = StartAnswer(status: int, uploadId: Option<string>, partSize: int, parts: Option<seq<Part>>)

  datatype ConfirmAnswer = ConfirmAnswer(status: int, id: Option<string>, state: Option<string>)

  datatype ReadAnswer = ReadAnswer(status: int, state: Option<string>)

  /** What one video's own calls are answered, and the clock when they are: the
      clock at its start, and after each status read. */
  datatype Video = Video(start: StartAnswer, puts: nat -> int, confirm: ConfirmAnswer, answers: nat -> ReadAnswer,
                         started: int, clock: nat -> int)

  datatype Problem =
    | StartFailed(status: int)
    | PutFailed(part: int, status: int)
    | ConfirmFailed(status: int)
    | ReadFailed(status: int)
    | Ended(state: Option<string>)
    | Still(state: Option<string>)

  datatype Outcome = Outcome(index: nat, id: Option<string>, state: Option<string>, problem: Option<Problem>)

  // ------------------------------------------------------------ one driver

  datatype Request =
    | StartUpload(fileName: string)
    | PutPart(url: string, body: seq<bv8>)
    | Confirm(uploadId: string, idempotencyKey: string)
    | ReadStatus(id: string)

  datatype Phase =
    | Starting
    | Putting(uploadId: string, parts: seq<Part>, next: nat)
    | Polling(id: string, polls: nat, state: Option<string>)
    | Sleeping(id: string, polls: nat, state: Option<string>)
    | Finished(outcome: Outcome)

  /** A driver and the requests it has sent. */
  datatype Driver = Driver(index: nat, phase: Phase, sent: seq<Request>)

  datatype Context = Context(runId: string, bytes: seq<bv8>, timeoutMs: int, pollMs: nat)

  const COMPLETED := "COMPLETED"

  predicate IsTerminal(state: Option<string>) {
    state == Some("COMPLETED") || state == Some("FAILED")
  }

  function FileName(index: nat): string { "load-" + NatText(index) + ".mp4" }

  function IdempotencyKey(runId: string, index: nat): string { "load-" + (runId + ("-" + NatText(index))) }

  /** An index of `subarray`: a negative one counts from the end. */
  function Clamp(at: int, length: nat): nat {
    if at < 0 then (if length + at < 0 then 0 else length + at) else if at < length then at else length
  }

  /** `bytes.subarray(from, to)`. */
  function Subarray(bytes: seq<bv8>, from: int, to: int): seq<bv8> {
    var lo, hi := Clamp(from, |bytes|), Clamp(to, |bytes|);
    if lo < hi then bytes[lo..hi] else []
  }

  function Body(part: Part, partSize: int, bytes: seq<bv8>): seq<bv8> {
    Subarray(bytes, (part.number - 1) * partSize, part.number * partSize)
  }

  function Begin(index: nat): Driver { Driver(index, Starting, []) }

  function Finish(d: Driver, id: Option<string>, state: Option<string>, problem: Option<Problem>): Phase {
    Finished(Outcome(d.index, id, state, problem))
  }

  /** One turn of `driveVideo`. */
  function Turn(d: Driver, video: Video, ctx: Context): Driver {
    match d.phase
    case Starting =>
      var a := video.start;
      Driver(d.index,
             if a.status != 201 || a.uploadId.None? || a.parts.None?
             then Finish(d, None, None, Some(StartFailed(a.status)))
             else Putting(a.uploadId.value, a.parts.value, 0),
             d.sent + [StartUpload(FileName(d.index))])
    case Putting(uploadId, parts, next) =>
      if next < |parts| then
        Driver(d.index,
               if video.puts(next) != 200
               then Finish(d, None, None, Some(PutFailed(parts[next].number, video.puts(next))))
               else Putting(uploadId, parts, next + 1),
               d.sent + [PutPart(parts[next].url, Body(parts[next], video.start.partSize, ctx.bytes))])
      else
        var a := video.confirm;
        Driver(d.index,
               if a.status != 201 || a.id.None?
               then Finish(d, None, None, Some(ConfirmFailed(a.status)))
               else Polling(a.id.value, 0, a.state),
               d.sent + [Confirm(uploadId, IdempotencyKey(ctx.runId, d.index))])
    case Polling(id, polls, state) =>
      Driver(d.index, Judge(d, id, polls, state, video, ctx), d.sent + [ReadStatus(id)])
    case Sleeping(id, polls, state) => d.(phase := Polling(id, polls, state))
    case Finished(_) => d
  }

  /** What a status read leads to. */
  function Judge(d: Driver, id: string, polls: nat, state: Option<string>, video: Video, ctx: Context): Phase {
    var a := video.answers(polls);
    if a.status != 200 then Finish(d, Some(id), state, Some(ReadFailed(a.status)))
    else if IsTerminal(a.state) then
      Finish(d, Some(id), a.state, if a.state == Some(COMPLETED) then None else Some(Ended(a.state)))
    else if video.clock(polls) >= video.started + ctx.timeoutMs then Finish(d, Some(id), a.state, Some(Still(a.state)))
    else Sleeping(id, polls + 1, a.state)
  }

  function Turns(d: Driver, video: Video, ctx: Context, n: nat): Driver {
    if n == 0 then d else Turn(Turns(d, video, ctx, n - 1), video, ctx)
  }

  // -------------------------------------------------------- the whole load

  /** A schedule names, turn by turn, the driver that goes on. */
  function Interleave(drivers: seq<Driver>, videos: seq<Video>, ctx: Context, schedule: seq<nat>): (r: seq<Driver>)
    requires |drivers| == |videos| && forall k :: 0 <= k < |schedule| ==> schedule[k] < |videos|
    ensures |r| == |drivers|
    decreases |schedule|
  {
    if schedule == [] then drivers
    else
      var before := Interleave(drivers, videos, ctx, schedule[..|schedule| - 1]);
      var i := schedule[|schedule| - 1];
      before[i := Turn(before[i], videos[i], ctx)]
  }

  function BeginAll(n: nat): seq<Driver> {
    seq(n, i requires 0 <= i < n => Begin(i + 1))
  }

  function CountOf(schedule: seq<nat>, i: nat): nat {
    if schedule == [] then 0
    else CountOf(schedule[..|schedule| - 1], i) + if schedule[|schedule| - 1] == i then 1 else 0
  }

  predicate IsSchedule(schedule: seq<nat>, n: nat) {
    forall k :: 0 <= k < |schedule| ==> schedule[k] < n
  }

  // --------------------------------------------------- interleavings agree

  /** A driver is where its own turns have brought it, whatever the others did. */
  lemma {:induction false} OwnTurnsOnly(drivers: seq<Driver>, videos: seq<Video>, ctx: Context, schedule: seq<nat>, i: nat)
    requires |drivers| == |videos| && IsSchedule(schedule, |videos|) && i < |videos|
    ensures Interleave(drivers, videos, ctx, schedule)[i] == Turns(drivers[i], videos[i], ctx, CountOf(schedule, i))
    decreases |schedule|
  {
    hide Turn;
    if schedule == [] {
    } else {
      OwnTurnsOnly(drivers, videos, ctx, schedule[..|schedule| - 1], i);
    }
  }

  lemma {:induction false} FinishedStays(d: Driver, video: Video, ctx: Context, m: nat, n: nat)
    requires m <= n && Turns(d, video, ctx, m).phase.Finished?
    ensures Turns(d, video, ctx, n) == Turns(d, video, ctx, m)
    decreases n - m
  {
    if m == n {
    } else {
      FinishedStays(d, video, ctx, m, n - 1);
    }
  }

  predicate AllFinished(drivers: seq<Driver>) {
    forall i :: 0 <= i < |drivers| ==> drivers[i].phase.Finished?
  }

  function Outcomes(drivers: seq<Driver>): seq<Outcome>
    requires AllFinished(drivers)
  {
    seq(|drivers|, i requires 0 <= i < |drivers| => drivers[i].phase.outcome)
  }

  /** Every interleaving that lets all drivers finish ends with the same drivers:
      the same outcomes, in the order of the videos, and the same requests. */
  lemma InterleavingsAgree(videos: seq<Video>, ctx: Context, schedule: seq<nat>, other: seq<nat>)
    requires IsSchedule(schedule, |videos|) && IsSchedule(other, |videos|)
    requires AllFinished(Interleave(BeginAll(|videos|), videos, ctx, schedule))
    requires AllFinished(Interleave(BeginAll(|videos|), videos, ctx, other))
    ensures Interleave(BeginAll(|videos|), videos, ctx, schedule) == Interleave(BeginAll(|videos|), videos, ctx, other)
  {
    hide Turn, Turns, Interleave, CountOf;
    var drivers := BeginAll(|videos|);
    forall i: nat | i < |videos|
      ensures Interleave(drivers, videos, ctx, schedule)[i] == Interleave(drivers, videos, ctx, other)[i]
    {
      OwnTurnsOnly(drivers, videos, ctx, schedule, i);
      OwnTurnsOnly(drivers, videos, ctx, other, i);
      var m, n := CountOf(schedule, i), CountOf(other, i);
      if m <= n {
        FinishedStays(drivers[i], videos[i], ctx, m, n);
      } else {
        FinishedStays(drivers[i], videos[i], ctx, n, m);
      }
    }
  }

  // ------------------------------------------------------- what a driver does

  /** The status reads among a driver's requests. */
  function ReadCount(sent: seq<Request>): nat {
    if sent == [] then 0
    else ReadCount(sent[..|sent| - 1]) + if sent[|sent| - 1].ReadStatus? then 1 else 0
  }

  predicate IsCompleted(video: Video, k: nat) {
    video.answers(k).status == 200 && video.answers(k).state == Some(COMPLETED)
  }

  /** The reads before the given one all said to go on, in time. */
  predicate NoneTerminal(video: Video, ctx: Context, polls: nat) {
    forall k: nat :: k < polls ==>
      video.answers(k).status == 200 && !IsTerminal(video.answers(k).state)
      && video.clock(k) < video.started + ctx.timeoutMs
  }

  predicate IsUploaded(video: Video) {
    video.start.status == 201 && video.start.uploadId.Some? && video.start.parts.Some?
    && forall k: nat :: k < |video.start.parts.value| ==> video.puts(k) == 200
  }

  /** What it takes, in the answers alone, for a video to complete: the upload
      and its confirmation are accepted, and a read says COMPLETED after reads
      that each said to go on before the deadline. */
  ghost predicate Completes(video: Video, ctx: Context) {
    Confirmed(video) && exists k: nat :: IsCompleted(video, k) && NoneTerminal(video, ctx, k)
  }

  predicate Confirmed(video: Video) {
    IsUploaded(video) && video.confirm.status == 201 && video.confirm.id.Some?
  }

  /** A driver in terms of the answers alone: before the end no read was terminal,
      and the outcome has no problem exactly when a read said COMPLETED. */
  ghost predicate Consistent(d: Driver, video: Video, ctx: Context) {
    match d.phase
    case Starting => ReadCount(d.sent) == 0
    case Putting(uploadId, parts, next) =>
      ReadCount(d.sent) == 0
      && video.start.status == 201 && video.start.uploadId == Some(uploadId) && video.start.parts == Some(parts)
      && next <= |parts| && (forall k: nat :: k < next ==> video.puts(k) == 200)
    case Polling(id, polls, _) =>
      ReadCount(d.sent) == polls && video.confirm.id == Some(id) && NoneTerminal(video, ctx, polls) && Confirmed(video)
    case Sleeping(id, polls, _) =>
      ReadCount(d.sent) == polls && video.confirm.id == Some(id) && NoneTerminal(video, ctx, polls) && Confirmed(video)
    case Finished(outcome) =>
      outcome.index == d.index
      && (outcome.id.Some? ==> outcome.id == video.confirm.id)
      && (outcome.problem.None? ==> outcome.id.Some? && outcome.state == Some(COMPLETED))
      && (outcome.problem.None? <==> exists k: nat :: k < ReadCount(d.sent) && IsCompleted(video, k))
      && (outcome.problem.None? <==> Completes(video, ctx))
  }

  lemma ReadCountMore(sent: seq<Request>, r: Request)
    ensures ReadCount(sent + [r]) == ReadCount(sent) + if r.ReadStatus? then 1 else 0
  {
    assert (sent + [r])[..|sent|] == sent;
  }

  lemma JudgeConsistent(d: Driver, video: Video, ctx: Context)
    requires d.phase.Polling? && Consistent(d, video, ctx)
    ensures Consistent(Turn(d, video, ctx), video, ctx)
  {
    hide ReadCount;
    var polls := d.phase.polls;
    ReadCountMore(d.sent, ReadStatus(d.phase.id));
    assert IsCompleted(video, polls) || !IsCompleted(video, polls);
    assert forall k: nat :: k < polls ==> !IsCompleted(video, k);
  }

  lemma TurnConsistent(d: Driver, video: Video, ctx: Context)
    requires Consistent(d, video, ctx)
    ensures Consistent(Turn(d, video, ctx), video, ctx)
  {
    hide ReadCount, FileName, IdempotencyKey;
    if d.phase.Polling? {
      JudgeConsistent(d, video, ctx);
    } else if d.phase.Starting? {
      ReadCountMore(d.sent, StartUpload(FileName(d.index)));
    } else if d.phase.Putting? {
      if d.phase.next < |d.phase.parts| {
        var part := d.phase.parts[d.phase.next];
        ReadCountMore(d.sent, PutPart(part.url, Body(part, video.start.partSize, ctx.bytes)));
      } else {
        ReadCountMore(d.sent, Confirm(d.phase.uploadId, IdempotencyKey(ctx.runId, d.index)));
      }
    }
  }

  lemma {:induction false} TurnsKeep(index: nat, video: Video, ctx: Context, n: nat)
    ensures var d := Turns(Begin(index), video, ctx, n);
      d.index == index && Consistent(d, video, ctx)
  {
    hide Consistent, Turn;
    if n == 0 {
      StartConsistent(index, video, ctx);
    } else {
      TurnsKeep(index, video, ctx, n - 1);
      var d := Turns(Begin(index), video, ctx, n - 1);
      TurnConsistent(d, video, ctx);
      TurnIndex(d, video, ctx);
    }
  }

  lemma StartConsistent(index: nat, video: Video, ctx: Context)
    ensures Consistent(Begin(index), video, ctx)
  {
  }

  lemma TurnIndex(d: Driver, video: Video, ctx: Context)
    ensures Turn(d, video, ctx).index == d.index
  {
  }

  lemma EveryDriverConsistent(videos: seq<Video>, ctx: Context, schedule: seq<nat>, i: nat)
    requires IsSchedule(schedule, |videos|) && i < |videos|
    ensures var d := Interleave(BeginAll(|videos|), videos, ctx, schedule)[i];
      d.index == i + 1 && Consistent(d, videos[i], ctx)
  {
    hide Turns, Interleave, CountOf, Consistent;
    OwnTurnsOnly(BeginAll(|videos|), videos, ctx, schedule, i);
    TurnsKeep(i + 1, videos[i], ctx, CountOf(schedule, i));
  }

  /** No two videos share an Idempotency-Key. */
  lemma KeysDiffer(runId: string, a: nat, b: nat)
    requires IdempotencyKey(runId, a) == IdempotencyKey(runId, b)
    ensures a == b
  {
    hide NatText;
    var key := IdempotencyKey(runId, a);
    var start := "load-" + (runId + "-");
    assert key == start + NatText(a) && key == start + NatText(b);
    assert key[|start|..] == NatText(a) && key[|start|..] == NatText(b);
    NatDigits(a);
    NatDigits(b);
  }

  /** A finished video goes unnamed in the failures exactly when one of the reads
      it sent was answered COMPLETED. */
  lemma UnnamedExactlyWhenCompleted(index: nat, video: Video, ctx: Context, n: nat)
    requires Turns(Begin(index), video, ctx, n).phase.Finished?
    ensures var d := Turns(Begin(index), video, ctx, n);
      (d.phase.outcome.problem.None? <==> exists k: nat :: k < ReadCount(d.sent) && IsCompleted(video, k))
      && (d.phase.outcome.problem.None? <==> Completes(video, ctx))
  {
    hide Turns, ReadCount, IsCompleted;
    TurnsKeep(index, video, ctx, n);
  }

  /** The bodies of the first `n` parts, joined. */
  function Bodies(parts: seq<Part>, n: nat, partSize: int, bytes: seq<bv8>): seq<bv8>
    requires n <= |parts|
  {
    if n == 0 then [] else Bodies(parts, n - 1, partSize, bytes) + Body(parts[n - 1], partSize, bytes)
  }

  lemma SubarrayExtends(bytes: seq<bv8>, from: nat, to: nat)
    requires from <= to
    ensures bytes[..Clamp(from, |bytes|)] + Subarray(bytes, from, to) == bytes[..Clamp(to, |bytes|)]
  {
  }

  lemma {:induction false} BodiesSoFar(parts: seq<Part>, n: nat, partSize: int, bytes: seq<bv8>)
    requires partSize > 0 && n <= |parts| && forall k :: 0 <= k < |parts| ==> parts[k].number == k + 1
    ensures n * partSize >= 0
    ensures Bodies(parts, n, partSize, bytes) == bytes[..Clamp(n * partSize, |bytes|)]
  {
    hide Subarray;
    if n == 0 {
    } else {
      BodiesSoFar(parts, n - 1, partSize, bytes);
      assert n * partSize == (n - 1) * partSize + partSize;
      SubarrayExtends(bytes, (n - 1) * partSize, n * partSize);
    }
  }

  /** Parts numbered from one that are enough for the file carry all of it: joined
      in order, the bodies a driver puts are the file. */
  lemma BodiesAreTheFile(parts: seq<Part>, partSize: int, bytes: seq<bv8>)
    requires partSize > 0 && |parts| * partSize >= |bytes|
    requires forall k :: 0 <= k < |parts| ==> parts[k].number == k + 1
    ensures Bodies(parts, |parts|, partSize, bytes) == bytes
  {
    BodiesSoFar(parts, |parts|, partSize, bytes);
  }

  // ------------------------------------------------------------ it finishes

  /** Every sleep moves the clock on by at least the poll interval. */
  ghost predicate ClockMoves(video: Video, ctx: Context) {
    ctx.pollMs > 0 && video.clock(0) >= video.started
    && forall k: nat :: video.clock(k + 1) >= video.clock(k) + ctx.pollMs
  }

  lemma {:induction false} ClockAfter(video: Video, ctx: Context, k: nat)
    requires ClockMoves(video, ctx)
    ensures video.clock(k) >= video.started + k * ctx.pollMs
  {
    if k == 0 {
    } else {
      ClockAfter(video, ctx, k - 1);
      assert video.clock(k - 1 + 1) >= video.clock(k - 1) + ctx.pollMs;
      assert k * ctx.pollMs == (k - 1) * ctx.pollMs + ctx.pollMs;
    }
  }

  function PartCount(video: Video): nat {
    if video.start.parts.Some? then |video.start.parts.value| else 0
  }

  /** Polls a video can sleep after. */
  function MostPolls(ctx: Context): nat
    requires ctx.pollMs > 0
  {
    PollsWithin(ctx.timeoutMs, ctx.pollMs)
  }

  /** The number of turns a driver that is not finished has had. */
  function TurnsHad(d: Driver, video: Video): int {
    match d.phase
    case Starting => 0
    case Putting(_, _, next) => 1 + next
    case Polling(_, polls, _) => 2 + PartCount(video) + 2 * polls
    case Sleeping(_, polls, _) => 1 + PartCount(video) + 2 * polls
    case Finished(_) => 0
  }

  predicate InTime(d: Driver, video: Video, ctx: Context)
    requires ctx.pollMs > 0
  {
    match d.phase
    case Putting(_, parts, next) => video.start.parts == Some(parts) && next <= |parts|
    case Polling(_, polls, _) => polls <= MostPolls(ctx)
    case Sleeping(_, polls, _) => polls <= MostPolls(ctx)
    case _ => true
  }

  lemma SleepInTime(video: Video, ctx: Context, k: nat)
    requires ClockMoves(video, ctx) && video.clock(k) < video.started + ctx.timeoutMs
    ensures k + 1 <= MostPolls(ctx)
  {
    ClockAfter(video, ctx, k);
    EarlyPoll(k + 1, ctx.timeoutMs, ctx.pollMs);
  }

  lemma {:induction false} TurnsCounted(index: nat, video: Video, ctx: Context, n: nat)
    requires ClockMoves(video, ctx)
    ensures var d := Turns(Begin(index), video, ctx, n);
      InTime(d, video, ctx) && (d.phase.Finished? || TurnsHad(d, video) == n)
  {
    hide MostPolls, FileName, IdempotencyKey;
    if n == 0 {
    } else {
      TurnsCounted(index, video, ctx, n - 1);
      var d := Turns(Begin(index), video, ctx, n - 1);
      if d.phase.Polling? && video.clock(d.phase.polls) < video.started + ctx.timeoutMs {
        SleepInTime(video, ctx, d.phase.polls);
      }
    }
  }

  function TurnsNeeded(video: Video, ctx: Context): nat
    requires ctx.pollMs > 0
  {
    PartCount(video) + 2 * MostPolls(ctx) + 3
  }

  /** When the clock moves, any interleaving that gives each driver its turns
      finishes all of them. */
  lemma EnoughTurnsFinish(videos: seq<Video>, ctx: Context, schedule: seq<nat>)
    requires IsSchedule(schedule, |videos|)
    requires forall i :: 0 <= i < |videos| ==>
      ClockMoves(videos[i], ctx) && CountOf(schedule, i) >= TurnsNeeded(videos[i], ctx)
    ensures AllFinished(Interleave(BeginAll(|videos|), videos, ctx, schedule))
  {
    hide Turns, Interleave, CountOf, Turn, MostPolls;
    forall i: nat | i < |videos|
      ensures Interleave(BeginAll(|videos|), videos, ctx, schedule)[i].phase.Finished?
    {
      OwnTurnsOnly(BeginAll(|videos|), videos, ctx, schedule, i);
      TurnsCounted(i + 1, videos[i], ctx, CountOf(schedule, i));
    }
  }

  // ------------------------------------------------------------ the loop itself

  /** A driver that has finished is finished once its turns are used up. */
  lemma FinishedInTime(index: nat, video: Video, ctx: Context, n: nat)
    requires ctx.pollMs > 0 && n <= TurnsNeeded(video, ctx) && Turns(Begin(index), video, ctx, n).phase.Finished?
    ensures Turns(Begin(index), video, ctx, TurnsNeeded(video, ctx)) == Turns(Begin(index), video, ctx, n)
  {
    hide Turns, TurnsNeeded;
    FinishedStays(Begin(index), video, ctx, n, TurnsNeeded(video, ctx));
  }

  /** `driveVideo` as the script writes it; `n` counts its turns. */
  method DriveVideo(index: nat, video: Video, ctx: Context) returns (outcome: Outcome, sent: seq<Request>)
    requires ClockMoves(video, ctx)
    ensures Turns(Begin(index), video, ctx, TurnsNeeded(video, ctx)) == Driver(index, Finished(outcome), sent)
  {
    hide FileName, IdempotencyKey, MostPolls, TurnsHad, InTime, Turns;
    ghost var n := 0;
    TurnsStart(index, video, ctx);
    sent := [StartUpload(FileName(index))];
    var start := video.start;
    TurnsStep(index, video, ctx, n);
    n := 1;
    if start.status != 201 || start.uploadId.None? || start.parts.None? {
      FinishedInTime(index, video, ctx, n);
      return Outcome(index, None, None, Some(StartFailed(start.status))), sent;
    }
    var uploadId, parts := start.uploadId.value, start.parts.value;
    for k := 0 to |parts|
      invariant n == k + 1
      invariant Turns(Begin(index), video, ctx, n) == Driver(index, Putting(uploadId, parts, k), sent)
    {
      TurnsStep(index, video, ctx, n);
      n := n + 1;
      sent := sent + [PutPart(parts[k].url, Body(parts[k], start.partSize, ctx.bytes))];
      if video.puts(k) != 200 {
        FinishedInTime(index, video, ctx, n);
        return Outcome(index, None, None, Some(PutFailed(parts[k].number, video.puts(k)))), sent;
      }
    }
    TurnsStep(index, video, ctx, n);
    n := n + 1;
    sent := sent + [Confirm(uploadId, IdempotencyKey(ctx.runId, index))];
    var confirm := video.confirm;
    if confirm.status != 201 || confirm.id.None? {
      FinishedInTime(index, video, ctx, n);
      return Outcome(index, None, None, Some(ConfirmFailed(confirm.status))), sent;
    }
    var id, state, polls := confirm.id.value, confirm.state, 0;
    var deadline := video.started + ctx.timeoutMs;
    while true
      invariant n == |parts| + 2 + 2 * polls && polls <= MostPolls(ctx)
      invariant Turns(Begin(index), video, ctx, n) == Driver(index, Polling(id, polls, state), sent)
      decreases MostPolls(ctx) - polls
    {
      TurnsStep(index, video, ctx, n);
      n := n + 1;
      sent := sent + [ReadStatus(id)];
      var read := video.answers(polls);
      if read.status != 200 {
        FinishedInTime(index, video, ctx, n);
        return Outcome(index, Some(id), state, Some(ReadFailed(read.status))), sent;
      }
      state := read.state;
      if IsTerminal(state) {
        FinishedInTime(index, video, ctx, n);
        return Outcome(index, Some(id), state, if state == Some(COMPLETED) then None else Some(Ended(state))), sent;
      }
      if video.clock(polls) >= deadline {
        FinishedInTime(index, video, ctx, n);
        return Outcome(index, Some(id), state, Some(Still(state))), sent;
      }
      SleepInTime(video, ctx, polls);
      polls := polls + 1;
      TurnsStep(index, video, ctx, n);
      n := n + 1;
    }
  }

  lemma TurnsStart(index: nat, video: Video, ctx: Context)
    ensures Turns(Begin(index), video, ctx, 0) == Begin(index)
  {
  }

  lemma TurnsStep(index: nat, video: Video, ctx: Context, n: nat)
    ensures Turns(Begin(index), video, ctx, n + 1) == Turn(Turns(Begin(index), video, ctx, n), video, ctx)
  {
    hide Turn;
  }

  // -------------------------------------------------------------- the report

  const NO_REQUEST := "NO_REQUEST"

  function KeyOf(o: Outcome): string {
    if o.state.Some? then o.state.value else NO_REQUEST
  }

  /** How many outcomes fall under a status. */
  function Under(outcomes: seq<Outcome>, key: string): nat {
    if outcomes == [] then 0
    else Under(outcomes[..|outcomes| - 1], key) + if KeyOf(outcomes[|outcomes| - 1]) == key then 1 else 0
  }

  ghost function Total(counts: map<string, nat>): nat
    decreases |counts|
  {
    if counts == map[] then 0
    else
      var key :| key in counts;
      assert counts - {key} != counts;
      counts[key] + Total(counts - {key})
  }

  lemma {:induction false} TotalWithout(counts: map<string, nat>, key: string)
    requires key in counts
    ensures Total(counts) == counts[key] + Total(counts - {key})
    decreases |counts|
  {
    var other :| other in counts && Total(counts) == counts[other] + Total(counts - {other});
    if other == key {
    } else {
      TotalWithout(counts - {other}, key);
      TotalWithout(counts - {key}, other);
      assert counts - {other} - {key} == counts - {key} - {other};
    }
  }

  lemma TotalGrows(counts: map<string, nat>, key: string)
    ensures var before := if key in counts then counts[key] else 0;
      Total(counts[key := before + 1]) == Total(counts) + 1
  {
    var before := if key in counts then counts[key] else 0;
    var after := counts[key := before + 1];
    TotalWithout(after, key);
    if key in counts {
      TotalWithout(counts, key);
      assert after - {key} == counts - {key};
    } else {
      assert after - {key} == counts;
    }
  }

  /** The indices of the outcomes with a problem, in order. */
  function Named(outcomes: seq<Outcome>): seq<nat> {
    if outcomes == [] then []
    else
      Named(outcomes[..|outcomes| - 1])
      + if outcomes[|outcomes| - 1].problem.Some? then [outcomes[|outcomes| - 1].index] else []
  }

  /** A result without a state falls under NO_REQUEST. */
  predicate FallsUnder(o: Outcome, key: string) {
    key == if o.state.Some? then o.state.value else "NO_REQUEST"
  }

  function PlacesUnder(outcomes: seq<Outcome>, key: string): set<nat> {
    set k | 0 <= k < |outcomes| && FallsUnder(outcomes[k], key)
  }

  lemma UnderLast(outcomes: seq<Outcome>, key: string)
    requires outcomes != []
    ensures var n := |outcomes| - 1;
      Under(outcomes, key) == Under(outcomes[..n], key) + if FallsUnder(outcomes[n], key) then 1 else 0
  {
  }

  lemma PlacesLast(outcomes: seq<Outcome>, key: string)
    requires outcomes != []
    ensures var n := |outcomes| - 1;
      n !in PlacesUnder(outcomes[..n], key)
      && PlacesUnder(outcomes, key)
         == if FallsUnder(outcomes[n], key) then PlacesUnder(outcomes[..n], key) + {n} else PlacesUnder(outcomes[..n], key)
  {
    hide FallsUnder;
    var n := |outcomes| - 1;
    forall k ensures k in PlacesUnder(outcomes, key) <==>
                     k in PlacesUnder(outcomes[..n], key) || (k == n && FallsUnder(outcomes[n], key)) {
    }
  }

  /** The count under a status is the number of the results that fall under it. */
  lemma {:induction false} UnderIs(outcomes: seq<Outcome>, key: string)
    ensures Under(outcomes, key) == |PlacesUnder(outcomes, key)|
  {
    if outcomes == [] {
      assert PlacesUnder(outcomes, key) == {};
    } else {
      UnderLast(outcomes, key);
      PlacesLast(outcomes, key);
      hide Under, FallsUnder, PlacesUnder;
      UnderIs(outcomes[..|outcomes| - 1], key);
    }
  }

  lemma NothingCounted()
    ensures Total(map[]) == 0 && Named([]) == [] && forall key :: Under([], key) == 0
  {
  }

  /** One outcome more. */
  lemma CountedNext(outcomes: seq<Outcome>, k: nat)
    requires k < |outcomes|
    ensures forall key :: Under(outcomes[..k + 1], key)
                       == Under(outcomes[..k], key) + if KeyOf(outcomes[k]) == key then 1 else 0
    ensures Named(outcomes[..k + 1])
         == Named(outcomes[..k]) + if outcomes[k].problem.Some? then [outcomes[k].index] else []
  {
    hide KeyOf;
    assert outcomes[..k + 1][..k] == outcomes[..k];
  }

  /** `summarize`: the count of each status, and the videos named as failures. */
  method Summarize(outcomes: seq<Outcome>) returns (counts: map<string, nat>, failures: seq<nat>)
    ensures forall key :: (if key in counts then counts[key] else 0) == Under(outcomes, key)
    ensures Total(counts) == |outcomes|
    ensures failures == Named(outcomes)
  {
    hide Under, Named, Total, KeyOf;
    counts, failures := map[], [];
    NothingCounted();
    for k := 0 to |outcomes|
      invariant forall key :: (if key in counts then counts[key] else 0) == Under(outcomes[..k], key)
      invariant Total(counts) == k
      invariant failures == Named(outcomes[..k])
    {
      CountedNext(outcomes, k);
      var key := KeyOf(outcomes[k]);
      TotalGrows(counts, key);
      counts := counts[key := (if key in counts then counts[key] else 0) + 1];
      if outcomes[k].problem.Some? { failures := failures + [outcomes[k].index]; }
    }
    assert outcomes[..|outcomes|] == outcomes;
  }

  lemma NamedLast(outcomes: seq<Outcome>, index: nat)
    requires outcomes != []
    ensures var n := |outcomes| - 1;
      index in Named(outcomes) <==>
      index in Named(outcomes[..n]) || (outcomes[n].index == index && outcomes[n].problem.Some?)
  {
  }

  lemma {:induction false} NamedMembers(outcomes: seq<Outcome>, index: nat)
    ensures index in Named(outcomes) <==>
      exists k :: 0 <= k < |outcomes| && outcomes[k].index == index && outcomes[k].problem.Some?
  {
    if outcomes == [] {
    } else {
      var n := |outcomes| - 1;
      NamedMembers(outcomes[..n], index);
      NamedLast(outcomes, index);
      hide Named;
      assert forall k :: 0 <= k < n ==> outcomes[..n][k] == outcomes[k];
    }
  }

  /** Outcomes in the order of their indices are named in that order. */
  lemma {:induction false} NamedInOrder(outcomes: seq<Outcome>)
    requires forall j, k :: 0 <= j < k < |outcomes| ==> outcomes[j].index < outcomes[k].index
    ensures forall j, k :: 0 <= j < k < |Named(outcomes)| ==> Named(outcomes)[j] < Named(outcomes)[k]
  {
    if outcomes == [] {
    } else {
      var n := |outcomes| - 1;
      var before := outcomes[..n];
      NamedInOrder(before);
      forall j: nat | j < |Named(before)| ensures Named(before)[j] < outcomes[n].index {
        NamedMembers(before, Named(before)[j]);
      }
    }
  }

  /** The verdict of a load: whatever the interleaving, the report names exactly
      the videos that did not complete. */
  lemma ReportNamesExactly(videos: seq<Video>, ctx: Context, schedule: seq<nat>, i: nat)
    requires IsSchedule(schedule, |videos|) && i < |videos|
    requires AllFinished(Interleave(BeginAll(|videos|), videos, ctx, schedule))
    ensures i + 1 in Named(Outcomes(Interleave(BeginAll(|videos|), videos, ctx, schedule)))
       <==> !Completes(videos[i], ctx)
  {
    hide Interleave, Completes, ReadCount, IsCompleted, Named;
    var drivers := Interleave(BeginAll(|videos|), videos, ctx, schedule);
    forall k: nat | k < |videos|
      ensures drivers[k].phase.outcome.index == k + 1
      ensures drivers[k].phase.outcome.problem.None? <==> Completes(videos[k], ctx)
    {
      EveryDriverConsistent(videos, ctx, schedule, k);
    }
    var outcomes := Outcomes(drivers);
    assert forall k :: 0 <= k < |videos| ==> outcomes[k] == drivers[k].phase.outcome;
    NamedMembers(outcomes, i + 1);
  }
}
