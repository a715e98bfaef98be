/**
 * Verification of classes: superclass first, at compile time or at run time, while other threads
 * verify and initialize classes too.
 */
module VerifyClass {
  import opened Options

  datatype Status =
    | Error | NotReady | Idx | Loaded | Resolved | Verifying | RetryVerificationAtRuntime | VerifyingAtRuntime
    | Verified | Initializing | Initialized

  function Rank(s: Status): int {
    match s
    case Error => -1
    case NotReady => 0
    case Idx => 1
    case Loaded => 2
    case Resolved => 3
    case Verifying => 4
    case RetryVerificationAtRuntime => 5
    case VerifyingAtRuntime => 6
    case Verified => 7
    case Initializing => 8
    case Initialized => 9
  }

  predicate IsResolved(s: Status) { Rank(s) >= Rank(Resolved) }

  predicate IsCompileTimeVerified(s: Status) { Rank(s) >= Rank(RetryVerificationAtRuntime) }

  predicate IsVerified(s: Status) { Rank(s) >= Rank(Verified) }

  datatype FailureKind = NoFailure | SoftFailure | HardFailure

  /**
   * What is fixed about a class: its superclass, whether the boot class path holds it, the status
   * its oat file recorded (if an oat file is open) and what the verifier says of its methods.
   */
  datatype Class = Class(super: Option<nat>, boot: bool, oat: Option<Status>, verdict: FailureKind)

  datatype Config = Config(classes: seq<Class>, isCompiler: bool, useCompileTimeClassPath: bool) {
    /** Superclasses come first; oat files hold only final statuses, and at run time there is one for every class. */
    predicate Valid() {
      forall c :: 0 <= c < |classes| ==>
        && (classes[c].super.Some? ==> classes[c].super.value < c)
        && (classes[c].oat.Some? ==>
             classes[c].oat.value in {Verified, Initialized, RetryVerificationAtRuntime, Error, NotReady})
        && (!isCompiler ==> classes[c].oat.Some?)
    }

    /** The status taken from the oat file; NotReady where the oat file is not consulted. */
    function OatStatus(c: nat): Status
      requires c < |classes|
    {
      if isCompiler && (!useCompileTimeClassPath || !classes[c].boot || classes[c].oat.None?) then NotReady
      else if classes[c].oat.Some? then classes[c].oat.value
      else NotReady
    }

    predicate Preverified(c: nat)
      requires c < |classes|
    {
      OatStatus(c) == Verified || OatStatus(c) == Initialized
    }

    /** The class itself is at fault. */
    predicate Rejected(c: nat)
      requires c < |classes|
    {
      OatStatus(c) == Error || (!Preverified(c) && classes[c].verdict.HardFailure?)
    }

    /** The class itself leaves something to be checked at run time. */
    predicate Doubtful(c: nat)
      requires c < |classes|
    {
      !Preverified(c) && classes[c].verdict.SoftFailure?
    }

    /** Not to be verified (again). */
    predicate Settled(s: Status) {
      IsVerified(s) || (isCompiler && IsCompileTimeVerified(s))
    }

    /** The class or a superclass above it that is still to be verified is at fault. */
    ghost predicate Doomed(status: seq<Status>, c: nat)
      requires Valid() && |status| == |classes| && c < |classes|
      decreases c
    {
      status[c].Error?
      || (!Settled(status[c]) && (Rejected(c) || (classes[c].super.Some? && Doomed(status, classes[c].super.value))))
    }

    /** The class or a superclass above it must wait for run time. */
    ghost predicate Delayed(status: seq<Status>, c: nat)
      requires Valid() && |status| == |classes| && c < |classes|
      decreases c
    {
      isCompiler && !IsVerified(status[c])
      && (status[c].RetryVerificationAtRuntime? || Doubtful(c) ||
           (classes[c].super.Some? && Delayed(status, classes[c].super.value)))
    }

    /** How verification must end. */
    ghost function Expected(status: seq<Status>, c: nat): Status
      requires Valid() && |status| == |classes| && c < |classes|
    {
      if IsVerified(status[c]) then status[c]
      else if Doomed(status, c) then Error
      else if Delayed(status, c) then RetryVerificationAtRuntime
      else Verified
    }
  }

  predicate Quiet(s: Status) {
    !s.Verifying? && !s.VerifyingAtRuntime?
  }

  /**
   * No class is verified, or even resolved, ahead of its superclass; but a superclass whose
   * initialization failed is erroneous above classes that were verified before.
   */
  predicate SupersFirst(g: Config, status: seq<Status>)
    requires g.Valid() && |status| == |g.classes|
  {
    forall c :: 0 <= c < |status| && g.classes[c].super.Some? ==>
      var above := status[g.classes[c].super.value];
      (IsVerified(status[c]) ==> IsVerified(above) || above.Error?) &&
        (IsResolved(status[c]) ==> IsResolved(above) || above.Error?)
  }

  /** Every class that became verified has a verified superclass at that moment. */
  ghost predicate AfterSupers(g: Config, before: seq<Status>, after: seq<Status>)
    requires g.Valid() && |before| == |after| == |g.classes|
  {
    forall d :: 0 <= d < |after| && IsVerified(after[d]) && !IsVerified(before[d]) && g.classes[d].super.Some? ==>
      IsVerified(after[g.classes[d].super.value])
  }

  /** A status moves forward, or to Error before it is Initialized. */
  predicate Later(before: Status, after: Status) {
    !before.Error? && !before.Initialized? && (after.Error? || Rank(after) > Rank(before))
  }

  /**
   * What other threads may do meanwhile to the classes whose monitors this thread does not hold. A
   * verification by another thread holds the monitor of its class, so this thread sees it done or
   * not begun.
   */
  predicate Meanwhile(g: Config, before: seq<Status>, after: seq<Status>, held: set<nat>)
    requires g.Valid() && |before| == |g.classes|
  {
    && |after| == |before| && SupersFirst(g, after)
    && forall d :: 0 <= d < |after| ==>
         after[d] == before[d] || (d !in held && Quiet(after[d]) && Later(before[d], after[d]))
  }

  /** Nothing moves back, and the classes in `held` stay as they are. */
  ghost predicate Progress(before: seq<Status>, after: seq<Status>, held: set<nat>) {
    && |after| == |before|
    && forall d :: 0 <= d < |after| ==> after[d] == before[d] || (d !in held && Later(before[d], after[d]))
  }

  /** The classes that this thread does not hold are not in the middle of being verified. */
  ghost predicate QuietBut(status: seq<Status>, held: set<nat>) {
    forall d :: 0 <= d < |status| && d !in held ==> Quiet(status[d])
  }

  /** The classes up to `c` are not in the middle of being verified. */
  ghost predicate QuietTo(status: seq<Status>, c: nat)
    requires c < |status|
  {
    forall d :: 0 <= d <= c ==> Quiet(status[d])
  }

  class Linker {
    const g: Config
    var status: seq<Status>
    /** An exception is pending in the thread. */
    var pending: bool
    /** The statuses that other threads try to bring about, each at a moment when this thread lets them. */
    var others: seq<seq<Status>>

    ghost predicate Valid()
      reads `status
    {
      g.Valid() && |status| == |g.classes| && SupersFirst(g, status)
    }

    /** Other threads run while this one holds the monitors of the classes in `held`. */
    method Interfere(held: set<nat>)
      requires Valid()
      modifies `status, `others
      ensures Valid() && Meanwhile(g, old(status), status, held)
      ensures old(others) == [] ==> others == [] && status == old(status)
    {
      if others != [] {
        var next := others[0];
        others := others[1..];
        if Meanwhile(g, status, next, held) {
          status := next;
        }
      }
    }

    /** A status only moves forward, and an erroneous class is marked once, with its exception pending. */
    method SetStatus(c: nat, s: Status)
      requires c < |status|
      requires Rank(s) > Rank(status[c]) || s.Error?
      requires s.Error? ==> !status[c].Error? && pending
      modifies `status
      ensures status == old(status)[c := s]
    {
      status := status[c := s];
    }

    method VerifyClassUsingOatFile(c: nat) returns (preverified: bool, oatStatus: Status)
      requires g.Valid() && c < |g.classes|
      ensures oatStatus == g.OatStatus(c) && preverified == g.Preverified(c)
    {
      oatStatus := NotReady;
      if g.isCompiler {
        if !g.useCompileTimeClassPath {
          return false, oatStatus;
        }
        if !g.classes[c].boot {
          return false, oatStatus;
        }
      }
      if g.isCompiler && g.classes[c].oat.None? {
        return false, oatStatus;
      }
      oatStatus := g.classes[c].oat.value;
      if oatStatus == Verified || oatStatus == Initialized {
        return true, oatStatus;
      }
      assert oatStatus in {RetryVerificationAtRuntime, Error, NotReady};
      return false, oatStatus;
    }

    /**
     * Takes the superclass's monitor and verifies the superclass. It ends as expected of it, or
     * as other threads left it, and an exception is pending if that failed.
     */
    method VerifySuper(c: nat, super: nat, held: set<nat>) returns (abortedAt: Option<nat>, ghost decided: seq<Status>)
      requires Valid() && c < |status| && g.classes[c].super == Some(super) && !pending
      requires c in held && (forall h :: h in held ==> h >= c) && QuietBut(status, held)
      requires !Quiet(status[c]) && IsResolved(status[c])
      modifies `status, `pending, `others
      ensures abortedAt.Some? ==> abortedAt.value < c && AbortsOn(g, decided, abortedAt.value)
      ensures abortedAt.None? ==>
        Valid() && Progress(old(status), status, held) && QuietBut(status, held) && Done(g, status[super])
      ensures abortedAt.None? && pending ==> status[super].Error?
      ensures old(others) == [] ==> Alone(g, old(status), status, super) && others == [] && abortedAt.None?
      decreases c, 0
    {
      abortedAt, decided := None, status;
      Interfere(held);
      MeanwhileProgress(g, old(status), status, held);
      AloneNone(g, status, super);
      ghost var now := status;
      if !IsVerified(status[super]) && !status[super].Error? {
        ghost var released;
        abortedAt, released, decided := VerifyClass(super, held + {super});
        if abortedAt.None? {
          ProgressBoth(old(status), now, status, held, held);
        }
      }
    }

    /**
     * The rest of verification, once the superclass has been verified at least at compile time and
     * its monitor has been given back. The check on the superclass fails if and only if the
     * superclass became erroneous meanwhile and nothing else is wrong with the class.
     */
    method Decide(c: nat) returns (aborted: bool)
      requires Valid() && c < |status| && !pending && !Quiet(status[c])
      requires g.isCompiler ==> status[c].Verifying?
      requires g.classes[c].super.Some? ==> Done(g, status[g.classes[c].super.value])
      modifies `status, `pending
      ensures Valid()
      ensures aborted <==> AbortsOn(g, old(status), c)
      ensures if aborted then status == old(status) else status == old(status)[c := Outcome(g, old(status), c)]
      ensures !aborted ==> (pending <==> status[c].Error?)
    {
      aborted := false;
      var super := g.classes[c].super;
      var preverified, oatStatus := VerifyClassUsingOatFile(c);
      if oatStatus.Error? {
        pending := true;
        SetStatus(c, Error);
        return;
      }
      var failure := NoFailure;
      if !preverified {
        failure := g.classes[c].verdict;
      }
      if preverified || !failure.HardFailure? {
        assert !pending;
        if failure.NoFailure? {
          if super.None? || IsVerified(status[super.value]) {
            SetStatus(c, Verified);
          } else {
            if !status[super.value].RetryVerificationAtRuntime? {
              return true;
            }
            SetStatus(c, RetryVerificationAtRuntime);
          }
        } else {
          assert failure.SoftFailure?;
          if g.isCompiler {
            SetStatus(c, RetryVerificationAtRuntime);
          } else {
            SetStatus(c, Verified);
          }
        }
      } else {
        assert !pending;
        pending := true;
        SetStatus(c, Error);
      }
    }

    /**
     * Verifies a class after its superclass, holding its monitor. When no other thread interferes
     * it ends exactly as the statuses before, the oat files and the verifier's verdicts up the
     * superclass chain say. In any case it ends verified, erroneous or, in the compiler only, to be
     * retried at run time, as the statuses `released`, when the superclass was given back, and
     * `decided`, when the decision fell, say; unless a check on a superclass aborts the runtime.
     */
    method VerifyClass(c: nat, held: set<nat>)
      returns (abortedAt: Option<nat>, ghost released: seq<Status>, ghost decided: seq<Status>)
      requires Valid() && c < |status| && !pending
      requires c in held && (forall h :: h in held ==> h >= c) && QuietBut(status, held) && Quiet(status[c])
      requires IsResolved(status[c]) || status[c].Error?
      modifies `status, `pending, `others
      ensures abortedAt.Some? ==> abortedAt.value <= c && AbortsOn(g, decided, abortedAt.value)
      ensures abortedAt.None? ==>
        && Valid() && Progress(old(status), status, held - {c}) && QuietBut(status, held) && Done(g, status[c])
        && Decided(g, old(status), released, decided, status, c, held) && (pending <==> status[c].Error?)
      ensures old(others) == [] ==> Alone(g, old(status), status, c) && others == [] && abortedAt.None?
      decreases c, 2
    {
      hide AfterSupers, SupersFirst, Config.Expected, Outcome, Frame, Progress, QuietBut, Decided, Alone;
      abortedAt, released, decided := None, status, status;
      ghost var before := status;
      AloneNone(g, status, c);
      NotNeeded(g, status, c, held);
      if IsVerified(status[c]) || (IsCompileTimeVerified(status[c]) && g.isCompiler) {
        return;
      }
      if status[c].Error? {
        pending := true;
        return;
      }
      UnverifiedKeeps(g, status, c);
      if status[c].Resolved? {
        SetStatus(c, Verifying);
      } else {
        assert status[c].RetryVerificationAtRuntime?;
        assert !g.isCompiler;
        SetStatus(c, VerifyingAtRuntime);
      }
      Begun(before, status, c, held);
      abortedAt, released, decided := VerifyMarked(c, held, before);
    }

    /** Verifies the superclass of a class that is marked as being verified, and then the class. */
    method VerifyMarked(c: nat, held: set<nat>, ghost before: seq<Status>)
      returns (abortedAt: Option<nat>, ghost released: seq<Status>, ghost decided: seq<Status>)
      requires Valid() && c < |status| && !pending && c in held && (forall h :: h in held ==> h >= c)
      requires QuietBut(status, held)
      requires Marked(g, before, status, c, held) && (g.isCompiler ==> status[c].Verifying?)
      modifies `status, `pending, `others
      ensures abortedAt.Some? ==> abortedAt.value <= c && AbortsOn(g, decided, abortedAt.value)
      ensures abortedAt.None? ==>
        && Valid() && Progress(before, status, held - {c}) && QuietBut(status, held) && Done(g, status[c])
        && Decided(g, before, released, decided, status, c, held) && (pending <==> status[c].Error?)
      ensures old(others) == [] ==> Alone(g, before, status, c) && others == [] && abortedAt.None?
      decreases c, 1
    {
      hide SupersFirst, Outcome, Progress, QuietBut, Meanwhile, Decided, Alone, Marked;
      abortedAt, released, decided := None, status, status;
      ghost var now := status;
      ProgressNone(now, held);
      MarkedNow(g, before, now, c, held);
      var super := g.classes[c].super;
      if super.Some? {
        abortedAt, decided := VerifySuper(c, super.value, held);
        if abortedAt.Some? {
          return;
        }
        released := status;
        if !IsCompileTimeVerified(status[super.value]) {
          pending := true;
          ErrorEnds(g, before, now, released, decided, c, held);
          SetStatus(c, Error);
          return;
        }
      }
      released := status;
      Interfere(held);
      decided := status;
      GoesOn(g, before, now, released, decided, c, held);
      var aborted := Decide(c);
      if aborted {
        return Some(c), released, decided;
      }
      OutcomeEnds(g, before, now, released, decided, c, held);
    }

    /**
     * How initialization starts: a class that is not verified is verified, and what is left over
     * otherwise is an exception or, in the compiler, a class to retry at run time.
     */
    method EnsureVerified(c: nat) returns (ok: bool, abortedAt: Option<nat>)
      requires Valid() && c < |status| && QuietBut(status, {}) && !pending && IsResolved(status[c])
      modifies `status, `pending, `others
      ensures abortedAt.None? ==>
        Valid() && Progress(old(status), status, {}) && QuietBut(status, {}) && Done(g, status[c])
      ensures abortedAt.None? ==> (ok <==> IsVerified(status[c])) && (pending <==> status[c].Error?)
      ensures abortedAt.None? && ok && g.classes[c].super.Some? ==>
        var above := status[g.classes[c].super.value]; IsVerified(above) || above.Error?
      ensures old(others) == [] ==> abortedAt.None? && Alone(g, old(status), status, c)
      ensures old(others) == [] && ok && g.classes[c].super.Some? && !IsVerified(old(status[c])) ==>
        IsVerified(status[g.classes[c].super.value])
    {
      hide Config.Expected;
      ok, abortedAt := true, None;
      AloneNone(g, status, c);
      if !IsVerified(status[c]) {
        ghost var released, decided;
        abortedAt, released, decided := VerifyClass(c, {c});
        if abortedAt.Some? {
          return;
        }
        if !IsVerified(status[c]) {
          if status[c].Error? {
            assert pending;
          } else {
            assert g.isCompiler;
            assert status[c].RetryVerificationAtRuntime?;
          }
          ok := false;
        }
      }
    }

    /**
     * Any sequence of requests to verify, while other threads verify and initialize before and
     * during each. Unless a check aborts the runtime, every class asked for is done with in the
     * end, and no class is ever verified ahead of a superclass that is not erroneous.
     */
    method VerifyAll(requests: seq<nat>)
      returns (abortedAt: Option<nat>, ghost history: seq<(seq<Status>, seq<Status>)>)
      requires Valid() && QuietBut(status, {})
      requires forall i :: 0 <= i < |requests| ==>
        requests[i] < |status| && (IsResolved(status[requests[i]]) || status[requests[i]].Error?)
      modifies `status, `pending, `others
      ensures abortedAt.None? ==> Valid() && QuietBut(status, {}) && |history| == |requests|
      ensures abortedAt.None? ==> forall i :: 0 <= i < |requests| ==>
        requests[i] < |status| && Done(g, status[requests[i]])
      ensures abortedAt.None? ==> forall i :: 0 <= i < |requests| ==>
        Requested(g, requests[i], history[i].0, history[i].1, old(others) == [])
      ensures old(others) == [] ==> abortedAt.None?
    {
      hide Config.Expected, SupersFirst, AfterSupers, Meanwhile, Progress, QuietBut, Alone;
      abortedAt, history := None, [];
      for i := 0 to |requests|
        invariant Valid() && |status| == |old(status)| && QuietBut(status, {}) && |history| == i && abortedAt.None?
        invariant forall j :: 0 <= j < |requests| ==> IsResolved(status[requests[j]]) || status[requests[j]].Error?
        invariant forall j :: 0 <= j < i ==> Done(g, status[requests[j]])
        invariant forall j :: 0 <= j < i ==> Requested(g, requests[j], history[j].0, history[j].1, old(others) == [])
        invariant old(others) == [] ==> others == []
      {
        var c := requests[i];
        ghost var first := status;
        Interfere({});
        MeanwhileProgress(g, first, status, {});
        ghost var before := status;
        pending := false;
        StillDone(g, first, before, requests, i);
        QuietHeld(status, c);
        ghost var released, decided;
        abortedAt, released, decided := VerifyClass(c, {c});
        if abortedAt.Some? {
          return;
        }
        QuietAgain(g, status, c);
        StillDone(g, before, status, requests, i);
        history := history + [(before, status)];
      }
    }
  }

  /** The class that waits for its superclass is in order by itself, but its superclass has become erroneous. */
  predicate AbortsOn(g: Config, status: seq<Status>, c: nat) {
    && c < |g.classes| == |status| && g.classes[c].super.Some? && g.classes[c].super.value < |status|
    && status[g.classes[c].super.value].Error? && !g.Rejected(c) && !g.Doubtful(c)
  }

  // ---- how a class ends, from what is given about it ----

  /** An oat file that the linker trusts: at run time, or in the compiler for a class of the boot class path. */
  predicate Trusted(g: Config, c: nat)
    requires c < |g.classes|
  {
    !g.isCompiler || (g.useCompileTimeClassPath && g.classes[c].boot)
  }

  /**
   * How a class that had to be verified ends when no other thread interferes, its superclass being
   * fine: a trusted oat file that recorded it as verified or initialized settles it whatever the
   * verifier would say, one that recorded an error rejects it, and otherwise the verdict decides.
   */
  lemma EndsByItself(g: Config, before: seq<Status>, after: seq<Status>, c: nat)
    requires Alone(g, before, after, c)
    requires before[c].Resolved? || (before[c].RetryVerificationAtRuntime? && !g.isCompiler)
    requires g.classes[c].super.Some? ==> IsVerified(g.Expected(before, g.classes[c].super.value))
    ensures var x := g.classes[c];
      && (Trusted(g, c) && x.oat in {Some(Verified), Some(Initialized)} ==> after[c].Verified?)
      && (Trusted(g, c) && x.oat == Some(Error) ==> after[c].Error?)
      && (!Trusted(g, c) || x.oat in {Some(RetryVerificationAtRuntime), Some(NotReady), None} ==>
            && (x.verdict.HardFailure? ==> after[c].Error?)
            && (x.verdict.NoFailure? ==> after[c].Verified?)
            && (x.verdict.SoftFailure? ==> after[c] == if g.isCompiler then RetryVerificationAtRuntime else Verified))
  {
    var super := g.classes[c].super;
    assert super.Some? ==> !g.Doomed(before, super.value) && !g.Delayed(before, super.value);
    assert g.Doomed(before, c) <==> g.Rejected(c);
  }

  /**
   * An erroneous superclass makes the class erroneous; one to be retried, which only the compiler
   * leaves, at best to be retried.
   */
  lemma EndsBelow(g: Config, before: seq<Status>, after: seq<Status>, c: nat)
    requires Alone(g, before, after, c)
    requires before[c].Resolved? || (before[c].RetryVerificationAtRuntime? && !g.isCompiler)
    requires g.classes[c].super.Some? && Quiet(before[g.classes[c].super.value])
    ensures var above, x := g.Expected(before, g.classes[c].super.value), g.classes[c];
      && (above.Error? ==> after[c].Error?)
      && (above.RetryVerificationAtRuntime? ==>
            g.isCompiler && (after[c].Error? || after[c].RetryVerificationAtRuntime?))
      && (above.RetryVerificationAtRuntime? && Trusted(g, c) && x.oat in {Some(Verified), Some(Initialized)} ==>
            after[c].RetryVerificationAtRuntime?)
      && (above.RetryVerificationAtRuntime? && Trusted(g, c) && x.oat == Some(Error) ==> after[c].Error?)
      && (above.RetryVerificationAtRuntime? ==>
            !Trusted(g, c) || x.oat in {Some(RetryVerificationAtRuntime), Some(NotReady), None} ==>
              after[c] == if x.verdict.HardFailure? then Error else RetryVerificationAtRuntime)
  {
  }

  /** What verification does by itself. */
  ghost predicate Alone(g: Config, before: seq<Status>, after: seq<Status>, c: nat) {
    && g.Valid() && |before| == |after| == |g.classes| && c < |after|
    && after[c] == g.Expected(before, c) && Frame(before, after, c) && AfterSupers(g, before, after)
  }

  /**
   * How a class that had to be verified ended: rejected if its superclass was erroneous when it was
   * given back, else as the verdict and the superclass said when the decision fell. In between the
   * superclass moved only as other threads may move it.
   */
  ghost predicate Decided(g: Config, before: seq<Status>, released: seq<Status>, decided: seq<Status>,
                          after: seq<Status>, c: nat, held: set<nat>)
    requires g.Valid() && c < |g.classes| == |before|
  {
    if g.Settled(before[c]) || before[c].Error? then after == before
    else
      && |released| == |g.classes|
      && if g.classes[c].super.Some? && !IsCompileTimeVerified(released[g.classes[c].super.value])
         then released[g.classes[c].super.value].Error? && after == released[c := Error]
         else
           && Meanwhile(g, released, decided, held) && after == decided[c := Outcome(g, decided, c)]
           && (g.classes[c].super.Some? ==> Done(g, released[g.classes[c].super.value])) && !AbortsOn(g, decided, c)
  }

  /**
   * However other threads interfere, a class becomes verified below a superclass that is verified
   * or has failed meanwhile.
   */
  lemma VerifiedInOrder(g: Config, before: seq<Status>, released: seq<Status>, decided: seq<Status>,
                        after: seq<Status>, c: nat, held: set<nat>)
    requires g.Valid() && c < |g.classes| == |before| && Decided(g, before, released, decided, after, c, held)
    requires IsVerified(after[c]) && !IsVerified(before[c]) && g.classes[c].super.Some?
    ensures |decided| == |g.classes|
    ensures var above := decided[g.classes[c].super.value]; IsVerified(above) || above.Error?
  {
    var super := g.classes[c].super.value;
    assert decided[super] == released[super] || Later(released[super], decided[super]);
  }

  ghost predicate Requested(g: Config, c: nat, before: seq<Status>, after: seq<Status>, alone: bool)
    requires g.Valid()
  {
    && |before| == |after| == |g.classes| && c < |before| && SupersFirst(g, after) && Progress(before, after, {})
    && Done(g, after[c])
    && (alone ==> Alone(g, before, after, c))
  }

  predicate Done(g: Config, s: Status) {
    IsVerified(s) || s.Error? || (g.isCompiler && s.RetryVerificationAtRuntime?)
  }

  /** What the verifier and the oat file make of a class whose superclass is as `status` says. */
  ghost function Outcome(g: Config, status: seq<Status>, c: nat): Status
    requires g.Valid() && c < |g.classes| == |status|
  {
    if g.Rejected(c) then Error
    else if g.isCompiler &&
      (g.Doubtful(c) || (g.classes[c].super.Some? && !IsVerified(status[g.classes[c].super.value])))
    then RetryVerificationAtRuntime
    else Verified
  }

  lemma UnverifiedKeeps(g: Config, status: seq<Status>, c: nat)
    requires g.Valid() && |status| == |g.classes| && SupersFirst(g, status) && c < |status|
    requires IsResolved(status[c]) && !IsVerified(status[c])
    ensures SupersFirst(g, status[c := Verifying]) && SupersFirst(g, status[c := VerifyingAtRuntime])
  {
  }

  lemma ErrorKeeps(g: Config, status: seq<Status>, c: nat)
    requires g.Valid() && |status| == |g.classes| && SupersFirst(g, status) && c < |status| && !IsVerified(status[c])
    ensures SupersFirst(g, status[c := Error])
  {
  }

  lemma MeanwhileProgress(g: Config, before: seq<Status>, after: seq<Status>, held: set<nat>)
    requires g.Valid() && |before| == |g.classes| && Meanwhile(g, before, after, held)
    ensures Progress(before, after, held) && (QuietBut(before, held) ==> QuietBut(after, held))
  {
  }

  lemma NotNeeded(g: Config, status: seq<Status>, c: nat, held: set<nat>)
    requires g.Valid() && c < |g.classes| == |status|
    ensures Progress(status, status, held - {c})
    ensures g.Settled(status[c]) || status[c].Error? ==> Decided(g, status, status, status, status, c, held)
  {
  }

  lemma ProgressNone(status: seq<Status>, held: set<nat>)
    ensures Progress(status, status, held)
  {
  }

  lemma ProgressBoth(a: seq<Status>, b: seq<Status>, c: seq<Status>, held: set<nat>, held': set<nat>)
    requires Progress(a, b, held) && Progress(b, c, held') && held <= held'
    ensures Progress(a, c, held)
  {
  }

  lemma QuietHeld(status: seq<Status>, c: nat)
    requires QuietBut(status, {}) && c < |status|
    ensures QuietBut(status, {c}) && Quiet(status[c])
  {
  }

  lemma QuietAgain(g: Config, status: seq<Status>, c: nat)
    requires QuietBut(status, {c}) && c < |status| && Done(g, status[c])
    ensures QuietBut(status, {}) && {c} - {c} == {}
  {
  }

  /** What was resolved or done with stays so. */
  lemma StillDone(g: Config, before: seq<Status>, after: seq<Status>, requests: seq<nat>, n: nat)
    requires Progress(before, after, {}) && QuietBut(after, {}) && n <= |requests|
    requires forall i :: 0 <= i < |requests| ==>
      requests[i] < |before| && (IsResolved(before[requests[i]]) || before[requests[i]].Error?)
    requires forall i :: 0 <= i < n ==> Done(g, before[requests[i]])
    ensures forall i :: 0 <= i < |requests| ==> IsResolved(after[requests[i]]) || after[requests[i]].Error?
    ensures forall i :: 0 <= i < n ==> Done(g, after[requests[i]])
  {
    forall i | 0 <= i < |requests|
      ensures after[requests[i]] == before[requests[i]] || Later(before[requests[i]], after[requests[i]])
    {
    }
  }

  /** The class, which has to be verified, has been marked as being verified. */
  ghost predicate Marked(g: Config, before: seq<Status>, now: seq<Status>, c: nat, held: set<nat>) {
    && c < |before| == |now| == |g.classes| && now == before[c := now[c]] && !Quiet(now[c])
    && QuietBut(before, held) && Quiet(before[c]) && IsResolved(before[c]) && !g.Settled(before[c])
    && Later(before[c], now[c])
  }

  lemma Begun(before: seq<Status>, now: seq<Status>, c: nat, held: set<nat>)
    requires c < |before| == |now| && now == before[c := now[c]] && c in held && QuietBut(before, held)
    ensures QuietBut(now, held)
  {
  }

  lemma MarkedNow(g: Config, before: seq<Status>, now: seq<Status>, c: nat, held: set<nat>)
    requires Marked(g, before, now, c, held)
    ensures !Quiet(now[c]) && IsResolved(now[c]) && !now[c].Error? && c < |before| == |now|
  {
  }

  /** The class is rejected because of its superclass. */
  lemma ErrorEnds(g: Config, before: seq<Status>, now: seq<Status>, later: seq<Status>, decided: seq<Status>, c: nat,
                  held: set<nat>)
    requires g.Valid() && Marked(g, before, now, c, held) && |later| == |g.classes| && c in held
    requires g.classes[c].super.Some?
    requires (forall h :: h in held ==> h >= c) && Progress(now, later, held) && SupersFirst(g, later)
    requires QuietBut(later, held)
    requires Done(g, later[g.classes[c].super.value]) && !IsCompileTimeVerified(later[g.classes[c].super.value])
    ensures later[c] == now[c] && SupersFirst(g, later[c := Error])
    ensures Progress(before, later[c := Error], held - {c}) && QuietBut(later[c := Error], held)
    ensures Decided(g, before, later, decided, later[c := Error], c, held)
    ensures Alone(g, now, later, g.classes[c].super.value) ==> Alone(g, before, later[c := Error], c)
  {
    hide SupersFirst, Alone;
    MarkedProgress(g, before, now, c, held);
    ProgressBoth(before, now, later, held - {c}, held);
    ErrorKeeps(g, later, c);
    if Alone(g, now, later, g.classes[c].super.value) {
      DoneAlone(g, before, now, later, c, held);
      FailedBelow(g, before, now, later, c);
      EndedAlone(g, before, later[c := Error], c);
    }
  }

  lemma MarkedProgress(g: Config, before: seq<Status>, now: seq<Status>, c: nat, held: set<nat>)
    requires Marked(g, before, now, c, held)
    ensures Progress(before, now, held - {c})
  {
  }

  lemma EndedAlone(g: Config, before: seq<Status>, after: seq<Status>, c: nat)
    requires g.Valid() && |before| == |after| == |g.classes| && c < |after| && Ended(g, before, after, c)
    ensures Alone(g, before, after, c)
  {
  }

  lemma GoesOn(g: Config, before: seq<Status>, now: seq<Status>, released: seq<Status>, decided: seq<Status>, c: nat,
               held: set<nat>)
    requires g.Valid() && |released| == |g.classes| && c < |released| && c in held && (forall h :: h in held ==> h >= c)
    requires Meanwhile(g, released, decided, held) && Progress(now, released, held)
    requires g.classes[c].super.Some? ==>
      var above := released[g.classes[c].super.value]; Done(g, above) && IsCompileTimeVerified(above)
    ensures |decided| == |released| && SupersFirst(g, decided) && decided[c] == released[c] == now[c]
    ensures g.classes[c].super.Some? ==> Done(g, decided[g.classes[c].super.value])
  {
    hide SupersFirst;
    if g.classes[c].super.Some? {
      var super := g.classes[c].super.value;
      assert decided[super] == released[super] || Later(released[super], decided[super]);
    }
  }

  /** The class ends as decided. */
  lemma OutcomeEnds(g: Config, before: seq<Status>, now: seq<Status>, released: seq<Status>, decided: seq<Status>,
                    c: nat, held: set<nat>)
    requires g.Valid() && Marked(g, before, now, c, held) && |released| == |g.classes| && c in held
    requires forall h :: h in held ==> h >= c
    requires Progress(now, released, held) && SupersFirst(g, released) && QuietBut(released, held)
    requires Meanwhile(g, released, decided, held)
    requires !AbortsOn(g, decided, c) && (g.classes[c].super.Some? ==>
      var above := released[g.classes[c].super.value]; Done(g, above) && IsCompileTimeVerified(above))
    ensures var after := decided[c := Outcome(g, decided, c)];
      && Progress(before, after, held - {c}) && QuietBut(after, held) && Done(g, after[c])
      && Decided(g, before, released, decided, after, c, held)
      && (decided == released &&
           (match g.classes[c].super case Some(super) => Alone(g, now, released, super) case None => released == now)
          ==> Alone(g, before, after, c))
  {
    hide SupersFirst, Alone;
    MarkedProgress(g, before, now, c, held);
    MeanwhileProgress(g, released, decided, held);
    ProgressBoth(now, released, decided, held, held);
    ProgressBoth(before, now, decided, held - {c}, held);
    if decided == released &&
      match g.classes[c].super case Some(super) => Alone(g, now, released, super) case None => released == now {
      DoneAlone(g, before, now, released, c, held);
      DecidedBelow(g, before, now, released, c);
      EndedAlone(g, before, decided[c := Outcome(g, decided, c)], c);
    }
  }

  /** A failing input for the check on the superclass: it fails its initialization just before the decision. */
  lemma SuperFailsMeanwhile()
    ensures var parent := Class(None, true, Some(Verified), NoFailure);
      var g := Config([parent, Class(Some(0), true, Some(NotReady), NoFailure)], false, false);
      && g.Valid() && Meanwhile(g, [Verified, Verifying], [Error, Verifying], {1})
      && IsCompileTimeVerified(Verified) && AbortsOn(g, [Error, Verifying], 1)
  {
  }

  lemma AloneNone(g: Config, status: seq<Status>, c: nat)
    requires g.Valid() && |status| == |g.classes| && c < |status| && Quiet(status[c])
    ensures g.Settled(status[c]) || status[c].Error? ==> Alone(g, status, status, c)
  {
    FrameNone(status, c);
    AfterNone(g, status);
    ExpectedFinal(g, status, c);
  }

  lemma AfterNone(g: Config, status: seq<Status>)
    requires g.Valid() && |status| == |g.classes|
    ensures AfterSupers(g, status, status)
  {
  }

  lemma AfterMore(g: Config, before: seq<Status>, now: seq<Status>, later: seq<Status>, c: nat, s: Status)
    requires g.Valid() && |before| == |now| == |later| == |g.classes| && c < |now|
    requires now == before[c := now[c]] && !Quiet(now[c]) && later[c] == now[c] && AfterSupers(g, now, later)
    requires IsVerified(s) && g.classes[c].super.Some? ==> IsVerified(later[g.classes[c].super.value])
    ensures AfterSupers(g, before, later[c := s])
  {
  }

  /** Class `c` is being verified and what is above it has been: `before` led to `now` and then to `later`. */
  ghost predicate SuperDone(g: Config, before: seq<Status>, now: seq<Status>, later: seq<Status>, c: nat)
    requires g.Valid() && |before| == |now| == |later| == |g.classes| && c < |now|
  {
    && QuietTo(before, c) && IsResolved(before[c]) && !g.Settled(before[c])
    && now == before[c := now[c]] && !Quiet(now[c]) && later[c] == now[c] && AfterSupers(g, now, later)
    && SupersFirst(g, later)
    && match g.classes[c].super
       case Some(super) => Frame(now, later, super) && QuietTo(later, super) &&
         later[super] == g.Expected(before, super)
       case None => later == now
  }

  ghost predicate Ended(g: Config, before: seq<Status>, after: seq<Status>, c: nat)
    requires g.Valid() && |before| == |after| == |g.classes| && c < |after|
  {
    QuietTo(after, c) && Frame(before, after, c) && AfterSupers(g, before, after) && after[c] == g.Expected(before, c)
  }

  lemma FailedBelow(g: Config, before: seq<Status>, now: seq<Status>, later: seq<Status>, c: nat)
    requires g.Valid() && |before| == |now| == |later| == |g.classes| && c < |now|
    requires SuperDone(g, before, now, later, c)
    requires g.classes[c].super.Some? && later[g.classes[c].super.value].Error?
    ensures SupersFirst(g, later[c := Error]) && Ended(g, before, later[c := Error], c)
  {
    hide SupersFirst, AfterSupers, Frame, QuietTo, Config.Expected;
    ErrorKeeps(g, later, c);
    ErrorInherited(g, before, c);
    FrameMore(before, now, later, g.classes[c].super.value, c, Error);
    AfterMore(g, before, now, later, c, Error);
  }

  lemma DecidedBelow(g: Config, before: seq<Status>, now: seq<Status>, later: seq<Status>, c: nat)
    requires g.Valid() && |before| == |now| == |later| == |g.classes| && c < |now|
    requires SuperDone(g, before, now, later, c)
    requires g.classes[c].super.Some? ==> IsCompileTimeVerified(later[g.classes[c].super.value])
    requires !g.isCompiler && g.classes[c].super.Some? ==> IsVerified(later[g.classes[c].super.value])
    ensures Ended(g, before, later[c := Outcome(g, later, c)], c)
  {
    hide SupersFirst, AfterSupers, Frame, Outcome, Config.Expected;
    FrameNone(now, -1);
    OutcomeExpected(g, before, later, c);
    ExpectedForward(g, before, c);
    ExpectedFinal(g, before, c);
    FrameMore(before, now, later, if g.classes[c].super.Some? then g.classes[c].super.value else -1, c,
              Outcome(g, later, c));
    OutcomeAfterSuper(g, later, c);
    AfterMore(g, before, now, later, c, Outcome(g, later, c));
  }

  /** When no other thread interfered, what is above the class has been verified as expected. */
  lemma DoneAlone(g: Config, before: seq<Status>, now: seq<Status>, later: seq<Status>, c: nat, held: set<nat>)
    requires g.Valid() && |before| == |now| == |later| == |g.classes| && c < |now| && c in held
    requires forall h :: h in held ==> h >= c
    requires Marked(g, before, now, c, held)
    requires SupersFirst(g, later) && Progress(now, later, held) && QuietBut(later, held)
    requires match g.classes[c].super case Some(super) => Alone(g, now, later, super) case None => later == now
    ensures SuperDone(g, before, now, later, c)
  {
    hide SupersFirst, AfterSupers, Frame, Config.Expected;
    if g.classes[c].super.Some? {
      ExpectedAgrees(g, before, now, g.classes[c].super.value);
    } else {
      AfterNone(g, now);
    }
  }

  /** The verdict is verified only below a verified superclass. */
  lemma OutcomeAfterSuper(g: Config, status: seq<Status>, c: nat)
    requires g.Valid() && c < |g.classes| == |status|
    requires !g.isCompiler && g.classes[c].super.Some? ==> IsVerified(status[g.classes[c].super.value])
    ensures IsVerified(Outcome(g, status, c)) && g.classes[c].super.Some? ==>
      IsVerified(status[g.classes[c].super.value])
  {
  }

  /** A settled or erroneous class is expected to stay as it is. */
  lemma ExpectedFinal(g: Config, status: seq<Status>, c: nat)
    requires g.Valid() && |status| == |g.classes| && c < |status| && Quiet(status[c])
    ensures g.Settled(status[c]) || status[c].Error? ==> g.Expected(status, c) == status[c]
    ensures !IsCompileTimeVerified(g.Expected(status, c)) <==> g.Expected(status, c).Error?
    ensures g.Expected(status, c).RetryVerificationAtRuntime? ==> g.isCompiler
    ensures Quiet(g.Expected(status, c))
  {
  }

  lemma ErrorInherited(g: Config, before: seq<Status>, c: nat)
    requires g.Valid() && |before| == |g.classes| && c < |before| && g.classes[c].super.Some?
    requires g.Expected(before, g.classes[c].super.value).Error? && !g.Settled(before[c])
    ensures g.Expected(before, c).Error?
  {
  }

  /** The decision about a class, after its superclass, is the one expected beforehand. */
  lemma OutcomeExpected(g: Config, before: seq<Status>, now: seq<Status>, c: nat)
    requires g.Valid() && |before| == |now| == |g.classes| && c < |now|
    requires !g.Settled(before[c]) && !before[c].Error?
    requires g.classes[c].super.Some? ==>
      var super := g.classes[c].super.value;
      now[super] == g.Expected(before, super) && IsCompileTimeVerified(now[super])
    ensures Outcome(g, now, c) == g.Expected(before, c)
  {
    if g.classes[c].super.Some? {
      var super := g.classes[c].super.value;
      assert !g.Doomed(before, super);
      assert g.Delayed(before, super) <==> !IsVerified(now[super]);
    }
    assert g.Doomed(before, c) <==> g.Rejected(c);
  }

  /** The end of verification depends on no class after this one. */
  lemma {:induction false} ExpectedAgrees(g: Config, s: seq<Status>, t: seq<Status>, c: nat)
    requires g.Valid() && |s| == |t| == |g.classes| && c < |s| && forall d :: 0 <= d <= c ==> s[d] == t[d]
    ensures g.Expected(s, c) == g.Expected(t, c) && g.Doomed(s, c) == g.Doomed(t, c)
    ensures g.Delayed(s, c) == g.Delayed(t, c)
    decreases c
  {
    if g.classes[c].super.Some? {
      ExpectedAgrees(g, s, t, g.classes[c].super.value);
    }
  }

  /** Verifying class `c` leaves the classes after it alone, moves no status back and leaves final statuses alone. */
  ghost predicate Frame(before: seq<Status>, after: seq<Status>, c: int) {
    |before| == |after| && forall d :: 0 <= d < |after| ==> Changed(before[d], after[d], d, c)
  }

  lemma FrameNone(status: seq<Status>, c: int)
    ensures Frame(status, status, c)
  {
  }

  /** Verification of the superclass, then a decision about the class. */
  lemma FrameMore(before: seq<Status>, now: seq<Status>, later: seq<Status>, super: int, c: nat, s: Status)
    requires c < |before| == |now| && super < c && now == before[c := now[c]] && Frame(now, later, super)
    requires QuietTo(before, c) && !before[c].Error? && !IsVerified(before[c]) && Quiet(s)
    requires s.Error? || Rank(s) > Rank(before[c])
    requires super >= 0 ==> QuietTo(later, super)
    ensures Frame(before, later[c := s], c) && QuietTo(later[c := s], c)
  {
  }

  lemma ExpectedForward(g: Config, before: seq<Status>, c: nat)
    requires g.Valid() && |before| == |g.classes| && c < |before| && Quiet(before[c]) && !g.Settled(before[c])
    requires IsResolved(before[c])
    ensures g.Expected(before, c).Error? || Rank(g.Expected(before, c)) > Rank(before[c])
  {
  }

  predicate Changed(before: Status, after: Status, d: nat, c: int) {
    after == before || (d <= c && !before.Error? && !IsVerified(before) && (after.Error? || Rank(after) > Rank(before)))
  }
}
