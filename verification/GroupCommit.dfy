/** Group commit: a writer that sees another queued for the lock may leave its flush to it.
    Every step here is one hold of the write lock. */
module GroupCommit {
  import opened FixedWidth

  type Bytes = seq<Byte>

  /** A buffered writer over a transport. Its first error is sticky: it takes nothing and
      flushes nothing after it. */
  datatype Buffer = Buffer(buffered: Bytes, out: Bytes, broken: bool)

  /** What the transport does with a write it is given: all of it, or some and an error. */
  datatype Transport = Takes | Breaks(partial: nat)

  function Flush(b: Buffer, t: Transport): (Buffer, bool) {
    if b.broken then (b, false)
    else if b.buffered == [] then (b, true)
    else match t
      case Takes => (Buffer([], b.out + b.buffered, false), true)
      case Breaks(n) =>
        var m := Min(n, |b.buffered|);
        (Buffer(b.buffered[m..], b.out + b.buffered[..m], true), false)
  }

  /** Writing may overrun the buffer, which then hands its front to the transport. */
  function Write(b: Buffer, bytes: Bytes, spill: nat, t: Transport): (Buffer, bool) {
    if b.broken then (b, false)
    else
      var all := b.buffered + bytes;
      var n := Min(spill, |all|);
      match t
      case Takes => (Buffer(all[n..], b.out + all[..n], false), true)
      case Breaks(k) =>
        if n == 0 then (b.(buffered := all), true)
        else (Buffer(all[Min(k, n)..], b.out + all[..Min(k, n)], true), false)
  }

  /** A writer inside commit that left its flush to another: the bytes written before it, and
      the flush it waits for. */
  datatype Deferred = Deferred(mark: nat, target: nat)

  datatype Return = Return(mark: nat, ok: bool)

  /** `order` is every byte accepted, in the order the lock was held. */
  datatype Sys = Sys(
    enabled: bool,
    threshold: nat,
    buf: Buffer,
    order: Bytes,
    flushes: nat,        // b.seq
    failed: bool,        // b.err is set
    waiting: seq<Deferred>,
    finished: seq<Return>)

  datatype Action =
    | WriteFrame(bytes: Bytes, spill: nat, t: Transport)
    | Commit(contended: bool, t: Transport)
    | Wake(i: nat, t: Transport)
    | FlushNow(t: Transport)
    | FlushDirect(t: Transport)

  /** flushNowLocked, with its verdict. With group commit off it is a plain flush. */
  function FlushNowLocked(s: Sys, t: Transport): (Sys, bool) {
    var (b, ok) := Flush(s.buf, t);
    if !s.enabled then (s.(buf := b), ok)
    else
      var u := s.(buf := b, flushes := s.flushes + 1, failed := s.failed || !ok);
      (u, !u.failed)
  }

  function Finish(s: Sys, mark: nat, ok: bool): Sys {
    s.(finished := s.finished + [Return(mark, ok)])
  }

  predicate Defers(s: Sys, contended: bool) {
    s.enabled && contended && |s.buf.buffered| < s.threshold
  }

  predicate Enabled(s: Sys, a: Action) {
    a.Wake? ==> a.i < |s.waiting|
  }

  function RunCommit(s: Sys, contended: bool, t: Transport): Sys {
    if Defers(s, contended) then s.(waiting := s.waiting + [Deferred(|s.order|, s.flushes + 1)])
    else
      var (u, ok) := FlushNowLocked(s, t);
      Finish(u, |s.order|, ok)
  }

  /** A wake-up with the flush done returns its verdict; any other flushes on its own. */
  function RunWake(s: Sys, i: nat, t: Transport): Sys
    requires i < |s.waiting|
  {
    var d := s.waiting[i];
    var u := s.(waiting := s.waiting[..i] + s.waiting[i + 1..]);
    if s.flushes >= d.target then Finish(u, d.mark, !s.failed)
    else
      var (v, ok) := FlushNowLocked(u, t);
      Finish(v, d.mark, ok)
  }

  function Step(s: Sys, a: Action): Sys
    requires Enabled(s, a)
  {
    match a
    case WriteFrame(bytes, spill, t) =>
      if s.buf.broken then s else s.(buf := Write(s.buf, bytes, spill, t).0, order := s.order + bytes)
    case Commit(contended, t) => RunCommit(s, contended, t)
    case Wake(i, t) => RunWake(s, i, t)
    case FlushNow(t) => FlushNowLocked(s, t).0
    case FlushDirect(t) => s.(buf := Flush(s.buf, t).0)
  }

  function Start(enabled: bool, threshold: nat): Sys {
    Sys(enabled, threshold, Buffer([], [], false), [], 0, false, [], [])
  }

  predicate IsRun(s: Sys, run: seq<Action>)
    decreases |run|
  {
    run == [] || (Enabled(s, run[0]) && IsRun(Step(s, run[0]), run[1..]))
  }

  function After(s: Sys, run: seq<Action>): Sys
    requires IsRun(s, run)
    decreases |run|
  {
    if run == [] then s else After(Step(s, run[0]), run[1..])
  }

  // ------------------------------------------------------------- the invariant

  /** The transport has the first of the bytes, in lock order; unless it broke, the rest are
      still in the buffer. */
  predicate InOrder(b: Buffer, order: Bytes) {
    b.out <= order && (!b.broken ==> order == b.out + b.buffered)
  }

  predicate DeferredOk(s: Sys, d: Deferred) {
    && d.mark <= |s.order| && d.target <= s.flushes + 1
    && (d.target <= s.flushes && !s.failed ==> d.mark <= |s.buf.out|)
  }

  predicate Inv(s: Sys) {
    && InOrder(s.buf, s.order)
    && (forall i :: 0 <= i < |s.waiting| ==> DeferredOk(s, s.waiting[i]))
    && (forall i :: 0 <= i < |s.finished| && s.finished[i].ok ==> s.finished[i].mark <= |s.buf.out|)
  }

  /** A flush that succeeds leaves nothing behind, and no flush takes anything back. */
  lemma FlushDelivers(b: Buffer, t: Transport, order: Bytes)
    requires InOrder(b, order)
    ensures var (c, ok) := Flush(b, t);
      InOrder(c, order) && b.out <= c.out && (ok ==> c.out == order && !c.broken)
  {
    if !b.broken && b.buffered != [] && t.Breaks? {
      var n := Min(t.partial, |b.buffered|);
      assert b.out + b.buffered[..n] <= order;
    }
  }

  lemma WriteKeeps(b: Buffer, bytes: Bytes, spill: nat, t: Transport, order: Bytes)
    requires InOrder(b, order) && !b.broken
    ensures InOrder(Write(b, bytes, spill, t).0, order + bytes) && b.out <= Write(b, bytes, spill, t).0.out
  {
    var all := b.buffered + bytes;
    var n := Min(spill, |all|);
    assert order + bytes == b.out + all;
    assert all[..n] + all[n..] == all;
    if t.Breaks? {
      assert b.out + all[..Min(t.partial, n)] <= order + bytes;
    }
  }

  lemma FlushNowKeeps(s: Sys, t: Transport)
    requires Inv(s)
    ensures var (u, ok) := FlushNowLocked(s, t);
      Inv(u) && u.order == s.order && (ok ==> u.buf.out == s.order)
  {
    FlushDelivers(s.buf, t, s.order);
  }

  lemma CommitKeeps(s: Sys, contended: bool, t: Transport)
    requires Inv(s)
    ensures Inv(RunCommit(s, contended, t))
  {
    if !Defers(s, contended) {
      FlushNowKeeps(s, t);
    }
  }

  lemma WakeKeeps(s: Sys, i: nat, t: Transport)
    requires Inv(s) && i < |s.waiting|
    ensures Inv(RunWake(s, i, t))
  {
    var d := s.waiting[i];
    assert DeferredOk(s, d);
    var u := s.(waiting := s.waiting[..i] + s.waiting[i + 1..]);
    assert forall j :: 0 <= j < |u.waiting| ==> u.waiting[j] == s.waiting[if j < i then j else j + 1];
    if s.flushes < d.target {
      FlushNowKeeps(u, t);
    }
  }

  lemma StepKeeps(s: Sys, a: Action)
    requires Inv(s) && Enabled(s, a)
    ensures Inv(Step(s, a))
  {
    match a
    case WriteFrame(bytes, spill, t) =>
      if !s.buf.broken {
        WriteKeeps(s.buf, bytes, spill, t, s.order);
      }
    case Commit(contended, t) => CommitKeeps(s, contended, t);
    case Wake(i, t) => WakeKeeps(s, i, t);
    case FlushNow(t) => FlushNowKeeps(s, t);
    case FlushDirect(t) => FlushDelivers(s.buf, t, s.order);
  }

  lemma {:induction false} RunKeeps(s: Sys, run: seq<Action>)
    requires Inv(s) && IsRun(s, run)
    ensures Inv(After(s, run))
    decreases |run|
  {
    if run != [] {
      StepKeeps(s, run[0]);
      RunKeeps(Step(s, run[0]), run[1..]);
    }
  }

  // -------------------------------------------------------------- main result

  /** In every run, of any number of writers deferring to one another, with wake-ups that
      mean nothing and flushes that go past the batcher: what the transport has is what was
      written, in lock order, and a commit that returned no error returned after everything
      written before it had been handed over. */
  lemma NilMeansDelivered(enabled: bool, threshold: nat, run: seq<Action>, k: nat)
    requires IsRun(Start(enabled, threshold), run)
    ensures var s := After(Start(enabled, threshold), run);
      && s.buf.out <= s.order
      && (k < |s.finished| && s.finished[k].ok ==> s.finished[k].mark <= |s.buf.out|)
  {
    RunKeeps(Start(enabled, threshold), run);
  }

  // ------------------------------------------------------- exactly when it fails

  /** The flush has something the transport does not take, or the writer has broken before. */
  predicate FlushFails(b: Buffer, t: Transport) {
    b.broken || (b.buffered != [] && t.Breaks?)
  }

  lemma FlushFailsExactlyWhen(b: Buffer, t: Transport)
    ensures Flush(b, t).1 <==> !FlushFails(b, t)
    ensures Flush(b, t).0.broken <==> FlushFails(b, t)
  {
  }

  /** The step flushes through the batcher. */
  predicate Flushes(s: Sys, a: Action)
    requires Enabled(s, a)
  {
    match a
    case Commit(contended, _) => !(s.enabled && contended && |s.buf.buffered| < s.threshold)
    case Wake(i, _) => s.flushes < s.waiting[i].target
    case FlushNow(_) => true
    case _ => false
  }

  predicate Fails(s: Sys, a: Action)
    requires Enabled(s, a)
  {
    Flushes(s, a) && FlushFails(s.buf, a.t)
  }

  /** Some flush through the batcher has failed. */
  predicate AnyFailed(s: Sys, run: seq<Action>)
    requires IsRun(s, run)
    decreases |run|
  {
    run != [] && (Fails(s, run[0]) || AnyFailed(Step(s, run[0]), run[1..]))
  }

  /** With group commit on the verdict is kept, and a step spoils it exactly when it fails. */
  lemma StepFails(s: Sys, a: Action)
    requires Enabled(s, a)
    ensures Step(s, a).enabled == s.enabled && Step(s, a).threshold == s.threshold
    ensures s.enabled ==> (Step(s, a).failed <==> s.failed || Fails(s, a))
    ensures s.enabled ==> Step(s, a).flushes == s.flushes + if Flushes(s, a) then 1 else 0
  {
  }

  lemma {:induction false} RunFails(s: Sys, run: seq<Action>)
    requires s.enabled && IsRun(s, run)
    ensures After(s, run).enabled && (After(s, run).failed <==> s.failed || AnyFailed(s, run))
    decreases |run|
  {
    if run != [] {
      StepFails(s, run[0]);
      RunFails(Step(s, run[0]), run[1..]);
    }
  }

  lemma {:induction false} RunUnbatched(s: Sys, run: seq<Action>)
    requires !s.enabled && IsRun(s, run)
    ensures !After(s, run).enabled
    decreases |run|
  {
    if run != [] {
      StepFails(s, run[0]);
      RunUnbatched(Step(s, run[0]), run[1..]);
    }
  }

  /** What a step answers: a commit that does not defer has one verdict, of all that was
      written before it; one that defers has none, until it wakes. */
  lemma StepAnswers(s: Sys, a: Action)
    requires Enabled(s, a)
    ensures var u := Step(s, a);
      match a
      case Commit(_, _) =>
        if Flushes(s, a) then
          u.waiting == s.waiting &&
          u.finished == s.finished + [Return(|s.order|, if s.enabled then !u.failed else !Fails(s, a))]
        else u.finished == s.finished && u.waiting == s.waiting + [Deferred(|s.order|, s.flushes + 1)]
      case Wake(i, _) =>
        && u.waiting == s.waiting[..i] + s.waiting[i + 1..]
        && u.finished == s.finished +
             [Return(s.waiting[i].mark, if s.enabled || !Flushes(s, a) then !u.failed else !Fails(s, a))]
      case _ => u.finished == s.finished && u.waiting == s.waiting
  {
  }

  /** The verdict of every commit, both ways. With group commit on it is an error if and only
      if some flush through the batcher has failed by then, its own included. With it off it
      is an error if and only if its own flush failed. */
  lemma VerdictIsExact(enabled: bool, threshold: nat, run: seq<Action>, a: Action)
    requires IsRun(Start(enabled, threshold), run) && Enabled(After(Start(enabled, threshold), run), a)
    requires a.Commit? || a.Wake?
    ensures var s := After(Start(enabled, threshold), run);
      var u := Step(s, a);
      if a.Wake? || Flushes(s, a) then
        && |u.finished| == |s.finished| + 1
        && (enabled ==> (u.finished[|s.finished|].ok <==>
              !AnyFailed(Start(enabled, threshold), run) && !Fails(s, a)))
        && (!enabled && a.Commit? ==> (u.finished[|s.finished|].ok <==> !FlushFails(s.buf, a.t)))
      else u.finished == s.finished
  {
    var s := After(Start(enabled, threshold), run);
    StepAnswers(s, a);
    if enabled {
      RunFails(Start(enabled, threshold), run);
      StepFails(s, a);
    } else {
      RunUnbatched(Start(enabled, threshold), run);
    }
  }

  /** A flush through the batcher releases every writer that has left its bytes to it: their
      next wake-up returns without another. */
  lemma FlushReleasesAll(s: Sys, a: Action, i: nat)
    requires Inv(s) && s.enabled && Enabled(s, a) && Flushes(s, a) && i < |Step(s, a).waiting|
    ensures !Flushes(Step(s, a), Wake(i, Takes))
  {
    StepKeeps(s, a);
    StepFails(s, a);
    StepAnswers(s, a);
    assert forall j :: 0 <= j < |s.waiting| ==> DeferredOk(s, s.waiting[j]);
  }

  /** The transport broke under the step. */
  predicate Breaks(s: Sys, a: Action)
    requires Enabled(s, a)
  {
    match a
    case WriteFrame(bytes, spill, t) => t.Breaks? && spill > 0 && s.buf.buffered + bytes != []
    case FlushDirect(t) => FlushFails(s.buf, t)
    case _ => Fails(s, a)
  }

  /** The buffered writer is broken exactly when it was, or the transport broke under it. */
  lemma BrokenExactlyWhen(s: Sys, a: Action)
    requires Enabled(s, a)
    ensures Step(s, a).buf.broken <==> s.buf.broken || Breaks(s, a)
  {
  }

  // ---------------------------------------------------------------- the batcher

  class WriteBatcher {
    const enabled: bool
    const flushBytes: nat
    var buf: Buffer
    var seqNo: nat
    var err: bool
    var deferring: int

    constructor (on: bool, threshold: nat)
      ensures enabled == on && flushBytes == threshold
      ensures buf == Buffer([], [], false) && seqNo == 0 && !err && deferring == 0
    {
      enabled, flushBytes, buf, seqNo, err, deferring := on, threshold, Buffer([], [], false), 0, false, 0;
    }

    ghost function View(s: Sys): Sys
      reads this
    {
      s.(enabled := enabled, threshold := flushBytes, buf := buf, flushes := seqNo, failed := err)
    }

    /** The verdict, and whether the deferring writers are woken. */
    method FlushLocked(t: Transport, ghost s: Sys) returns (ok: bool, broadcast: bool)
      requires View(s) == s
      modifies this`buf, this`seqNo, this`err
      ensures View(s) == FlushNowLocked(s, t).0 && ok == FlushNowLocked(s, t).1
      ensures broadcast <==> enabled && deferring > 0
    {
      var b, good := Flush(buf, t).0, Flush(buf, t).1;
      buf := b;
      if !enabled {
        return good, false;
      }
      seqNo := seqNo + 1;
      if !good && !err {
        err := true;
      }
      return !err, deferring > 0;
    }

    /** The first half of commit: defer, or flush and return. */
    method BeginCommit(contended: bool, t: Transport, ghost s: Sys) returns (deferred: bool, target: nat, ok: bool)
      requires View(s) == s
      modifies this
      ensures deferred == Defers(s, contended)
      ensures deferred ==> target == s.flushes + 1 && View(s) == s && deferring == old(deferring) + 1
      ensures !deferred ==>
        View(s) == FlushNowLocked(s, t).0 && ok == FlushNowLocked(s, t).1 && deferring == old(deferring)
    {
      if enabled && contended && |buf.buffered| < flushBytes {
        deferring := deferring + 1;
        return true, seqNo + 1, false;
      }
      var broadcast;
      ok, broadcast := FlushLocked(t, s);
      return false, 0, ok;
    }

    /** The second half, with the lock held again. */
    method EndCommit(target: nat, t: Transport, ghost s: Sys) returns (ok: bool)
      requires View(s) == s
      modifies this
      ensures deferring == old(deferring) - 1
      ensures s.flushes >= target ==> View(s) == s && ok == !s.failed
      ensures s.flushes < target ==> View(s) == FlushNowLocked(s, t).0 && ok == FlushNowLocked(s, t).1
    {
      deferring := deferring - 1;
      if seqNo >= target {
        return !err;
      }
      var broadcast;
      ok, broadcast := FlushLocked(t, s);
    }
  }
}
