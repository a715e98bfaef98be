/**
 * Class initialization as a state machine over the steps of `InitializeClass` and
 * `WaitForInitializeClass`, interleaved by any number of threads. A thread's stack holds its
 * nested calls: a class's superclass, and whatever a running `<clinit>` initializes.
 */
module ClassInit {
  import opened Options

  datatype Status =
    | Error | Unresolved | Resolved | RetryVerificationAtRuntime | Verified | Initializing | Initialized

  function Rank(s: Status): int {
    match s
    case Error => -1
    case Unresolved => 2
    case Resolved => 3
    case RetryVerificationAtRuntime => 5
    case Verified => 7
    case Initializing => 8
    case Initialized => 9
  }

  /** Where a call of `InitializeClass` stands. */
  datatype Pc =
    | Entry | Locking | Locked | Checked | Claim | Waiting | Woken
    | Super | SuperCall | SuperFailed | Clinit | InClinit | Finish(threw: bool)

  datatype Frame = Frame(cls: nat, pc: Pc)

  /** The call that returned in the last step, if any; `refused` by `CanWeInitializeClass` or not. */
  datatype Event = Nothing | Returned(thread: nat, cls: nat, ok: bool, refused: bool)

  datatype Config = Config(
    classes: nat, threads: nat, supers: seq<Option<nat>>, interfaces: set<nat>, clinits: set<nat>,
    compiler: bool, waitThrows: bool)
  {
    ghost predicate Valid() {
      |supers| == classes && forall c :: 0 <= c < classes && supers[c].Some? ==>
        supers[c].value < classes && supers[c].value != c
    }

    /** Only a class that is not an interface initializes its superclass first. */
    predicate HasSuper(c: nat) requires |supers| == classes { c < classes && c !in interfaces && supers[c].Some? }
  }

  /**
   * What the runtime keeps per class. `owner` is the holder of the class's monitor. `runs` counts
   * entries into `<clinit>` and `depth` records the stack position that claimed the class; the
   * code has neither.
   */
  datatype Class = Class(status: Status, clinitThread: nat, owner: Option<nat>, runs: nat, depth: nat)

  datatype State = State(classes: seq<Class>, stacks: seq<seq<Frame>>, event: Event)

  /**
   * One step of one thread. `Step` runs the top frame; `yes` decides what the model leaves open
   * there (`CanWeInitializeClass`, `ValidateSuperClassDescriptors`, whether `<clinit>` or a wait
   * threw) and `verdict` is the outcome of `VerifyClass`.
   */
  datatype Action =
    | Call(cls: nat)
    | Step(yes: bool, verdict: Status)
    | VerifyElsewhere(target: nat, outcome: Status)
    | Link(linked: nat, ok: bool)

  ghost predicate Shape(g: Config, s: State) {
    |s.classes| == g.classes && |s.stacks| == g.threads
  }

  /** What `VerifyClass` may leave: retrying later is for the compiler only. */
  predicate Verdict(g: Config, v: Status) {
    v.Verified? || v.Error? || (v.RetryVerificationAtRuntime? && g.compiler)
  }

  predicate Unverified(v: Status) { v.Resolved? || v.RetryVerificationAtRuntime? }

  predicate HoldsLock(pc: Pc) { pc.Locked? || pc.Checked? || pc.Claim? || pc.Woken? }

  /** The call that set the class to Initializing and has not finished. */
  predicate Owns(pc: Pc) { pc.Super? || pc.SuperCall? || pc.SuperFailed? || pc.Clinit? || pc.InClinit? || pc.Finish? }

  predicate SuperDone(pc: Pc) { pc.Clinit? || pc.InClinit? || pc.Finish? }

  ghost predicate Runnable(g: Config, s: State, t: nat) {
    && g.Valid() && Shape(g, s) && t < g.threads && s.stacks[t] != []
    && forall f :: f in s.stacks[t] ==> f.cls < g.classes
  }

  ghost function Top(s: State, t: nat): Frame
    requires t < |s.stacks| && s.stacks[t] != []
  {
    s.stacks[t][|s.stacks[t]| - 1]
  }

  /** The top call moves to `pc`, leaving its class as `x`. */
  ghost function Goto(g: Config, s: State, t: nat, x: Class, pc: Pc): State
    requires Runnable(g, s, t)
  {
    var k := |s.stacks[t]| - 1;
    State(s.classes[Top(s, t).cls := x], s.stacks[t := s.stacks[t][k := Top(s, t).(pc := pc)]], Nothing)
  }

  function Push(s: State, t: nat, c: nat): State
    requires t < |s.stacks|
  {
    s.(stacks := s.stacks[t := s.stacks[t] + [Frame(c, Entry)]], event := Nothing)
  }

  /** The stack once its top call has returned: a caller that waited for its superclass moves on. */
  function Unwind(stack: seq<Frame>, ok: bool): seq<Frame>
    requires stack != []
  {
    var k := |stack| - 1;
    if k > 0 && stack[k - 1].pc.SuperCall?
    then stack[..k][k - 1 := stack[k - 1].(pc := if ok then Clinit else SuperFailed)]
    else stack[..k]
  }

  /**
   * The top call returns, leaving its class as `x`. A caller whose superclass failed without
   * becoming erroneous aborts the runtime.
   */
  ghost function Return(g: Config, s: State, t: nat, x: Class, ok: bool, refused: bool := false): Option<State>
    requires Runnable(g, s, t)
  {
    var k := |s.stacks[t]| - 1;
    if k > 0 && s.stacks[t][k - 1].pc.SuperCall? && !ok && !x.status.Error? then None
    else Some(State(s.classes[Top(s, t).cls := x], s.stacks[t := Unwind(s.stacks[t], ok)],
                    Returned(t, Top(s, t).cls, ok, refused)))
  }

  /** The next step of the top frame, or `None` when it is blocked or the runtime aborts. */
  ghost function Advance(g: Config, s: State, t: nat, yes: bool, verdict: Status): Option<State>
    requires Runnable(g, s, t)
  {
    var c := Top(s, t).cls;
    var x := s.classes[c];
    match Top(s, t).pc
    case Entry =>
      if x.status.Initialized? then Return(g, s, t, x, true)
      else if !yes then Return(g, s, t, x, false, true)
      else Some(Goto(g, s, t, x, Locking))
    case Locking =>
      if x.owner.None? then Some(Goto(g, s, t, x.(owner := Some(t)), Locked)) else None
    case Locked => AdvanceLocked(g, s, t, x, verdict)
    case Checked =>
      if x.status.Initializing? then
        if x.clinitThread == t then Return(g, s, t, x.(owner := None), true)
        else Some(Goto(g, s, t, x.(owner := None), Waiting))
      else if !yes then Return(g, s, t, x.(status := Error, owner := None), false)
      else Some(Goto(g, s, t, x, Claim))
    case Claim =>
      if !x.status.Verified? then None
      else Some(Goto(g, s, t,
                     x.(status := Initializing, owner := None, clinitThread := t, depth := |s.stacks[t]| - 1), Super))
    case Waiting =>
      if x.owner.None? then Some(Goto(g, s, t, x.(owner := Some(t)), Woken)) else None
    case Woken =>
      if g.waitThrows && yes then Return(g, s, t, x.(status := Error, owner := None), false)
      else if x.status.Initializing? then Some(Goto(g, s, t, x.(owner := None), Waiting))
      else if x.status.Verified? && g.compiler then Return(g, s, t, x.(owner := None), false)
      else if x.status.Error? then Return(g, s, t, x.(owner := None), false)
      else if x.status.Initialized? then Return(g, s, t, x.(owner := None), true)
      else None
    case Super =>
      if !g.HasSuper(c) || s.classes[g.supers[c].value].status.Initialized? then Some(Goto(g, s, t, x, Clinit))
      else Some(Push(Goto(g, s, t, x, SuperCall), t, g.supers[c].value))
    case SuperCall => None
    case SuperFailed =>
      if x.owner.None? then Return(g, s, t, x.(status := Error), false) else None
    case Clinit =>
      if c in g.clinits then Some(Goto(g, s, t, x.(runs := x.runs + 1), InClinit))
      else Some(Goto(g, s, t, x, Finish(false)))
    case InClinit => Some(Goto(g, s, t, x, Finish(yes)))
    case Finish(threw) =>
      if x.owner.None? then Return(g, s, t, x.(status := if threw then Error else Initialized), !threw) else None
  }

  /** Under the monitor: the re-checks, and verification if it is still to be done. */
  ghost function AdvanceLocked(g: Config, s: State, t: nat, x: Class, verdict: Status): Option<State>
    requires Runnable(g, s, t)
  {
    if x.status.Initialized? then Return(g, s, t, x.(owner := None), true)
    else if x.status.Error? then Return(g, s, t, x.(owner := None), false)
    else if x.status.Unresolved? then None
    else if Unverified(x.status) then
      if !Verdict(g, verdict) then None
      else if verdict.Verified? then Some(Goto(g, s, t, x.(status := verdict), Checked))
      else Return(g, s, t, x.(status := verdict, owner := None), false)
    else Some(Goto(g, s, t, x, Checked))
  }

  ghost function Next(g: Config, s: State, t: nat, a: Action): Option<State>
    requires g.Valid() && Shape(g, s) && t < g.threads
  {
    match a
    case Call(c) =>
      if c < g.classes && (s.stacks[t] == [] || Top(s, t).pc.InClinit?) then Some(Push(s, t, c)) else None
    case Step(yes, v) => if Runnable(g, s, t) then Advance(g, s, t, yes, v) else None
    case VerifyElsewhere(c, v) =>
      // VerifyClass on a subclass verifies this class first, under its monitor
      if c < g.classes && s.classes[c].owner.None? && Unverified(s.classes[c].status) && Verdict(g, v)
      then Some(s.(classes := s.classes[c := s.classes[c].(status := v)], event := Nothing)) else None
    case Link(c, ok) =>
      if c < g.classes && s.classes[c].owner.None? && s.classes[c].status.Unresolved?
      then Some(s.(classes := s.classes[c := s.classes[c].(status := if ok then Resolved else Error)],
                   event := Nothing))
      else None
  }

  // ---- the invariant ----

  /** The superclass `y` is ready for the call at position `i` of thread `t`'s stack. */
  ghost predicate Ready(y: Class, t: nat, i: nat) {
    y.status.Initialized? || (y.status.Initializing? && y.clinitThread == t && y.depth < i)
  }

  /** What a call at `pc`, at position `i` of thread `t`'s stack, knows about its class `x`. */
  ghost predicate Knows(x: Class, t: nat, i: nat, pc: Pc) {
    && (HoldsLock(pc) ==> x.owner == Some(t))
    && (pc.Checked? ==> x.status.Verified? || x.status.Initializing?)
    && (pc.Claim? ==> x.status.Verified?)
    && (pc.Waiting? || pc.Woken? ==> x.status.Initializing? || x.status.Initialized? || x.status.Error?)
    && (Owns(pc) ==> x.status.Initializing? && x.clinitThread == t && x.depth == i)
    && (Owns(pc) && !pc.InClinit? && !pc.Finish? ==> x.runs == 0)
  }

  ghost predicate FrameOk(g: Config, s: State, t: nat, i: nat)
    requires g.Valid() && Shape(g, s) && t < g.threads && i < |s.stacks[t]|
  {
    var f := s.stacks[t][i];
    && f.cls < g.classes && Knows(s.classes[f.cls], t, i, f.pc)
    && (i + 1 < |s.stacks[t]| ==> f.pc.SuperCall? || f.pc.InClinit?)
    && (f.pc.SuperCall? ==>
         i + 1 < |s.stacks[t]| && g.HasSuper(f.cls) && s.stacks[t][i + 1].cls == g.supers[f.cls].value)
    && (SuperDone(f.pc) && g.HasSuper(f.cls) ==> Ready(s.classes[g.supers[f.cls].value], t, i))
  }

  ghost predicate ClassOk(g: Config, s: State, c: nat)
    requires g.Valid() && Shape(g, s) && c < g.classes
  {
    var x := s.classes[c];
    && x.runs <= 1
    && (x.runs > 0 ==> x.status.Initializing? || x.status.Initialized? || x.status.Error?)
    && (x.status.Initializing? ==>
          && x.clinitThread < g.threads && x.depth < |s.stacks[x.clinitThread]|
          && var f := s.stacks[x.clinitThread][x.depth]; f.cls == c && Owns(f.pc))
    && (x.owner.Some? ==>
          && x.owner.value < g.threads && s.stacks[x.owner.value] != []
          && Top(s, x.owner.value).cls == c && HoldsLock(Top(s, x.owner.value).pc))
  }

  /**
   * A `true` result: the class is initialized, or the caller itself is initializing it. A `false`
   * result that was not refused at the start: it is erroneous, or the compiler will retry it.
   */
  ghost predicate Meaning(g: Config, x: Class, t: nat, ok: bool, refused: bool) {
    if ok then x.status.Initialized? || (x.status.Initializing? && x.clinitThread == t)
    else refused || x.status.Error? || (g.compiler && x.status.RetryVerificationAtRuntime?)
  }

  ghost predicate EventOk(g: Config, s: State)
    requires Shape(g, s)
  {
    s.event.Returned? ==>
      s.event.cls < g.classes && Meaning(g, s.classes[s.event.cls], s.event.thread, s.event.ok, s.event.refused)
  }

  ghost predicate Inv(g: Config, s: State) {
    && g.Valid() && Shape(g, s)
    && (forall t, i :: 0 <= t < g.threads && 0 <= i < |s.stacks[t]| ==> FrameOk(g, s, t, i))
    && (forall c :: 0 <= c < g.classes ==> ClassOk(g, s, c))
    && EventOk(g, s)
  }

  /** No thread is in the middle of anything, and nothing is being initialized. */
  ghost predicate Init(g: Config, s: State) {
    && g.Valid() && Shape(g, s) && s.event.Nothing?
    && (forall t :: 0 <= t < g.threads ==> s.stacks[t] == [])
    && (forall c :: 0 <= c < g.classes ==>
          s.classes[c].runs == 0 && s.classes[c].owner.None? && !s.classes[c].status.Initializing?)
  }

  /** Status never moves back, except to Error; Initialized and Error are final. */
  ghost predicate Forward(a: Status, b: Status) {
    a == b || (!a.Initialized? && !a.Error? && (b.Error? || Rank(a) < Rank(b)))
  }

  ghost predicate AllForward(g: Config, s: State, s': State)
    requires Shape(g, s) && Shape(g, s')
  {
    forall c :: 0 <= c < g.classes ==> Forward(s.classes[c].status, s'.classes[c].status)
  }

  // ---- every step keeps the invariant ----

  /**
   * The change from `x` to `y` is one that the monitor and the initializing call allow the top
   * call of thread `t`, at stack position `k`, to make.
   */
  ghost predicate Allowed(x: Class, y: Class, t: nat, k: nat) {
    && (x.owner.Some? && x.owner != Some(t) ==> y.owner == x.owner && y.status == x.status)
    && Forward(x.status, y.status)
    && (x.status.Initializing? && (y.status != x.status || y.runs != x.runs) ==> x.clinitThread == t && x.depth == k)
    && (y.clinitThread != x.clinitThread || y.depth != x.depth ==> x.status.Verified?)
    && (y.runs != x.runs ==> x.status.Initializing?)
  }

  /** The class record `y` fits a stack whose top call is now at `pc`, or has just returned. */
  ghost predicate Fits(x: Class, y: Class, t: nat, k: nat, pc: Option<Pc>) {
    && y.runs <= 1
    && (y.runs > 0 ==> y.status.Initializing? || y.status.Initialized? || y.status.Error?)
    && (y.status.Initializing? ==>
          if y.clinitThread == t && y.depth == k then pc.Some? && Owns(pc.value)
          else x.status.Initializing? && y.clinitThread == x.clinitThread && y.depth == x.depth)
    && (y.owner.Some? ==> if y.owner == Some(t) then pc.Some? && HoldsLock(pc.value) else y.owner == x.owner)
  }

  /** A frame that a step of thread `t` on class `c` does not touch stays correct. */
  lemma Untouched(g: Config, s: State, s': State, t: nat, c: nat, u: nat, i: nat)
    requires Inv(g, s) && Shape(g, s') && t < g.threads && s.stacks[t] != [] && c == Top(s, t).cls
    requires c < g.classes && s'.classes == s.classes[c := s'.classes[c]]
    requires Allowed(s.classes[c], s'.classes[c], t, |s.stacks[t]| - 1)
    requires u < g.threads && i < |s.stacks[u]| && i < |s'.stacks[u]| && s'.stacks[u][i] == s.stacks[u][i]
    requires u == t ==> i < |s.stacks[t]| - 1
    requires i + 1 < |s'.stacks[u]| ==> s.stacks[u][i].pc.SuperCall? || s.stacks[u][i].pc.InClinit?
    requires s.stacks[u][i].pc.SuperCall? ==>
      i + 1 < |s'.stacks[u]| && i + 1 < |s.stacks[u]| && s'.stacks[u][i + 1].cls == s.stacks[u][i + 1].cls
    ensures FrameOk(g, s', u, i)
  {
    assert FrameOk(g, s, u, i);
    assert ClassOk(g, s, c);
  }

  /** A class the step does not touch stays correct, if its frames are still there. */
  lemma OtherClass(g: Config, s: State, s': State, t: nat, c: nat, d: nat)
    requires Inv(g, s) && Shape(g, s') && t < g.threads && s.stacks[t] != [] && c == Top(s, t).cls
    requires c < g.classes && s'.classes == s.classes[c := s'.classes[c]]
    requires forall u :: 0 <= u < g.threads && u != t ==> s'.stacks[u] == s.stacks[u]
    requires d < g.classes && d != c
    requires forall i :: 0 <= i < |s.stacks[t]| - 1 && Owns(s.stacks[t][i].pc) ==>
      i < |s'.stacks[t]| && s'.stacks[t][i].cls == s.stacks[t][i].cls && Owns(s'.stacks[t][i].pc)
    ensures ClassOk(g, s', d)
  {
    assert ClassOk(g, s, d);
    assert FrameOk(g, s, t, |s.stacks[t]| - 1);
  }

  lemma GotoKeeps(g: Config, s: State, t: nat, y: Class, pc: Pc)
    requires Inv(g, s) && Runnable(g, s, t) && !pc.SuperCall?
    requires var (c, k) := (Top(s, t).cls, |s.stacks[t]| - 1);
      && Allowed(s.classes[c], y, t, k) && Fits(s.classes[c], y, t, k, Some(pc)) && Knows(y, t, k, pc)
      && (SuperDone(pc) && g.HasSuper(c) ==> Ready(s.classes[g.supers[c].value], t, k))
    ensures Inv(g, Goto(g, s, t, y, pc)) && AllForward(g, s, Goto(g, s, t, y, pc))
  {
    var c, k, s' := Top(s, t).cls, |s.stacks[t]| - 1, Goto(g, s, t, y, pc);
    forall u, i | 0 <= u < g.threads && 0 <= i < |s'.stacks[u]| ensures FrameOk(g, s', u, i) {
      assert FrameOk(g, s, u, i);
      if u != t || i < k {
        Untouched(g, s, s', t, c, u, i);
      }
    }
    forall d | 0 <= d < g.classes ensures ClassOk(g, s', d) {
      assert ClassOk(g, s, d);
      if d != c { OtherClass(g, s, s', t, c, d); }
    }
  }

  /** A call waiting for its superclass goes on, with the superclass ready if the result was `true`. */
  lemma CallerResumes(g: Config, s: State, t: nat, y: Class, ok: bool, refused: bool)
    requires Inv(g, s) && Runnable(g, s, t) && Return(g, s, t, y, ok, refused).Some?
    requires var (c, k) := (Top(s, t).cls, |s.stacks[t]| - 1);
      && Allowed(s.classes[c], y, t, k) && Fits(s.classes[c], y, t, k, None) && Meaning(g, y, t, ok, refused)
      && k > 0 && s.stacks[t][k - 1].pc.SuperCall?
    ensures FrameOk(g, Return(g, s, t, y, ok, refused).value, t, |s.stacks[t]| - 2)
  {
    var c, k := Top(s, t).cls, |s.stacks[t]| - 1;
    assert FrameOk(g, s, t, k - 1);
    assert ClassOk(g, s, c);
    if ok {
      assert Ready(y, t, k - 1);
    }
  }

  lemma ReturnKeeps(g: Config, s: State, t: nat, y: Class, ok: bool, refused: bool)
    requires Inv(g, s) && Runnable(g, s, t) && !Top(s, t).pc.SuperCall? && !Top(s, t).pc.InClinit?
    requires Return(g, s, t, y, ok, refused).Some?
    requires var (c, k) := (Top(s, t).cls, |s.stacks[t]| - 1);
      Allowed(s.classes[c], y, t, k) && Fits(s.classes[c], y, t, k, None) && Meaning(g, y, t, ok, refused)
    ensures var s' := Return(g, s, t, y, ok, refused).value; Inv(g, s') && AllForward(g, s, s')
  {
    var c, k, s' := Top(s, t).cls, |s.stacks[t]| - 1, Return(g, s, t, y, ok, refused).value;
    forall u, i | 0 <= u < g.threads && 0 <= i < |s'.stacks[u]| ensures FrameOk(g, s', u, i) {
      assert FrameOk(g, s, u, i);
      if u != t || s'.stacks[u][i] == s.stacks[u][i] {
        Untouched(g, s, s', t, c, u, i);
      } else {
        CallerResumes(g, s, t, y, ok, refused);
      }
    }
    forall d | 0 <= d < g.classes ensures ClassOk(g, s', d) {
      assert ClassOk(g, s, d);
      if d != c { OtherClass(g, s, s', t, c, d); }
    }
  }

  lemma PushKeeps(g: Config, s: State, t: nat, c: nat)
    requires Inv(g, s) && t < g.threads && c < g.classes
    requires s.stacks[t] == [] || Top(s, t).pc.InClinit?
    ensures Inv(g, Push(s, t, c)) && AllForward(g, s, Push(s, t, c))
  {
    var s' := Push(s, t, c);
    forall u, i | 0 <= u < g.threads && 0 <= i < |s'.stacks[u]| ensures FrameOk(g, s', u, i) {
      if u != t || i < |s.stacks[t]| { assert FrameOk(g, s, u, i); }
    }
    forall d | 0 <= d < g.classes ensures ClassOk(g, s', d) { assert ClassOk(g, s, d); }
  }

  lemma SuperCallKeeps(g: Config, s: State, t: nat)
    requires Inv(g, s) && Runnable(g, s, t) && Top(s, t).pc.Super? && g.HasSuper(Top(s, t).cls)
    ensures var s' := Push(Goto(g, s, t, s.classes[Top(s, t).cls], SuperCall), t, g.supers[Top(s, t).cls].value);
      Inv(g, s') && AllForward(g, s, s')
  {
    var c, k := Top(s, t).cls, |s.stacks[t]| - 1;
    var s' := Push(Goto(g, s, t, s.classes[c], SuperCall), t, g.supers[c].value);
    assert s'.classes == s.classes;
    forall u, i | 0 <= u < g.threads && 0 <= i < |s'.stacks[u]| ensures FrameOk(g, s', u, i) {
      if u != t || i <= k { assert FrameOk(g, s, u, i); }
    }
    forall d | 0 <= d < g.classes ensures ClassOk(g, s', d) {
      assert ClassOk(g, s, d);
      assert FrameOk(g, s, t, k);
    }
  }

  /** `Advance` keeps the invariant and moves every status forward. */
  ghost predicate Keeps(g: Config, s: State, r: Option<State>)
    requires Shape(g, s)
  {
    r.Some? ==> Inv(g, r.value) && AllForward(g, s, r.value)
  }

  lemma LockedKeeps(g: Config, s: State, t: nat, v: Status)
    requires Inv(g, s) && Runnable(g, s, t) && Top(s, t).pc.Locked?
    ensures Keeps(g, s, AdvanceLocked(g, s, t, s.classes[Top(s, t).cls], v))
  {
    var c, k := Top(s, t).cls, |s.stacks[t]| - 1;
    assert FrameOk(g, s, t, k) && ClassOk(g, s, c);
    hide Inv, AllForward, Return, Goto;
    var x := s.classes[c];
    if AdvanceLocked(g, s, t, x, v).Some? {
      if x.status.Initialized? || x.status.Error? {
        ReturnKeeps(g, s, t, x.(owner := None), x.status.Initialized?, false);
      } else if Unverified(x.status) && !v.Verified? {
        ReturnKeeps(g, s, t, x.(status := v, owner := None), false, false);
      } else {
        GotoKeeps(g, s, t, if Unverified(x.status) then x.(status := v) else x, Checked);
      }
    }
  }

  lemma StepKeeps(g: Config, s: State, t: nat, yes: bool, v: Status)
    requires Inv(g, s) && !g.waitThrows && Runnable(g, s, t)
    ensures Keeps(g, s, Advance(g, s, t, yes, v))
  {
    if Advance(g, s, t, yes, v).Some? {
      if Owns(Top(s, t).pc) {
        OwnerKeeps(g, s, t, yes, v);
      } else if Top(s, t).pc.Locked? {
        LockedKeeps(g, s, t, v);
      } else {
        CallKeeps(g, s, t, yes, v);
      }
    }
  }

  /** The steps before a call has claimed its class. */
  lemma CallKeeps(g: Config, s: State, t: nat, yes: bool, v: Status)
    requires Inv(g, s) && !g.waitThrows && Runnable(g, s, t) && !Owns(Top(s, t).pc) && !Top(s, t).pc.Locked?
    ensures Keeps(g, s, Advance(g, s, t, yes, v))
  {
    var c, k := Top(s, t).cls, |s.stacks[t]| - 1;
    assert FrameOk(g, s, t, k) && ClassOk(g, s, c);
    hide Inv, AllForward, Return, Goto;
    var x := s.classes[c];
    if Advance(g, s, t, yes, v).Some? {
      match Top(s, t).pc {
        case Entry =>
          if x.status.Initialized? || !yes {
            ReturnKeeps(g, s, t, x, x.status.Initialized?, !x.status.Initialized?);
          } else {
            GotoKeeps(g, s, t, x, Locking);
          }
        case Locking => GotoKeeps(g, s, t, x.(owner := Some(t)), Locked);
        case Checked => CheckedKeeps(g, s, t, yes, v);
        case Claim =>
          GotoKeeps(g, s, t, x.(status := Initializing, owner := None, clinitThread := t, depth := k), Super);
        case Waiting => GotoKeeps(g, s, t, x.(owner := Some(t)), Woken);
        case Woken => WokenKeeps(g, s, t, yes, v);
      }
    }
  }

  /** Under the monitor with a verified class: claimed, found claimed, or refused for its superclass descriptors. */
  lemma CheckedKeeps(g: Config, s: State, t: nat, yes: bool, v: Status)
    requires Inv(g, s) && Runnable(g, s, t) && Top(s, t).pc.Checked?
    ensures Keeps(g, s, Advance(g, s, t, yes, v))
  {
    var c, k := Top(s, t).cls, |s.stacks[t]| - 1;
    assert FrameOk(g, s, t, k) && ClassOk(g, s, c);
    hide Inv, AllForward, Return, Goto;
    var x := s.classes[c];
    if Advance(g, s, t, yes, v).Some? {
      if x.status.Verified? && !yes {
        ReturnKeeps(g, s, t, x.(status := Error, owner := None), false, false);
      } else if x.status.Verified? {
        GotoKeeps(g, s, t, x, Claim);
      } else if x.clinitThread == t {
        ReturnKeeps(g, s, t, x.(owner := None), true, false);
      } else {
        GotoKeeps(g, s, t, x.(owner := None), Waiting);
      }
    }
  }

  lemma WokenKeeps(g: Config, s: State, t: nat, yes: bool, v: Status)
    requires Inv(g, s) && !g.waitThrows && Runnable(g, s, t) && Top(s, t).pc.Woken?
    ensures Keeps(g, s, Advance(g, s, t, yes, v))
  {
    var c, k := Top(s, t).cls, |s.stacks[t]| - 1;
    assert FrameOk(g, s, t, k) && ClassOk(g, s, c);
    hide Inv, AllForward, Return, Goto;
    var x := s.classes[c];
    if Advance(g, s, t, yes, v).Some? {
      if x.status.Initializing? {
        GotoKeeps(g, s, t, x.(owner := None), Waiting);
      } else {
        ReturnKeeps(g, s, t, x.(owner := None), x.status.Initialized?, false);
      }
    }
  }

  /** The steps of the call that is initializing its class. */
  lemma OwnerKeeps(g: Config, s: State, t: nat, yes: bool, v: Status)
    requires Inv(g, s) && !g.waitThrows && Runnable(g, s, t) && Owns(Top(s, t).pc)
    ensures Keeps(g, s, Advance(g, s, t, yes, v))
  {
    var c, k := Top(s, t).cls, |s.stacks[t]| - 1;
    assert FrameOk(g, s, t, k) && ClassOk(g, s, c);
    hide Inv, AllForward, Return, Goto, Push;
    var x := s.classes[c];
    if Advance(g, s, t, yes, v).Some? {
      match Top(s, t).pc {
        case Super =>
          if !g.HasSuper(c) || s.classes[g.supers[c].value].status.Initialized? {
            GotoKeeps(g, s, t, x, Clinit);
          } else {
            SuperCallKeeps(g, s, t);
          }
        case SuperFailed => ReturnKeeps(g, s, t, x.(status := Error), false, false);
        case Clinit =>
          if c in g.clinits {
            GotoKeeps(g, s, t, x.(runs := x.runs + 1), InClinit);
          } else {
            GotoKeeps(g, s, t, x, Finish(false));
          }
        case InClinit => GotoKeeps(g, s, t, x, Finish(yes));
        case Finish(threw) => ReturnKeeps(g, s, t, x.(status := if threw then Error else Initialized), !threw, false);
      }
    }
  }

  /** A class verified or linked on behalf of another keeps everything else as it is. */
  lemma OutsideKeeps(g: Config, s: State, c: nat, v: Status)
    requires Inv(g, s) && c < g.classes && s.classes[c].owner.None?
    requires Unverified(s.classes[c].status) || s.classes[c].status.Unresolved?
    requires Forward(s.classes[c].status, v) && !v.Initializing?
    ensures var s' := s.(classes := s.classes[c := s.classes[c].(status := v)], event := Nothing);
      Inv(g, s') && AllForward(g, s, s')
  {
    var s' := s.(classes := s.classes[c := s.classes[c].(status := v)], event := Nothing);
    forall u, i | 0 <= u < g.threads && 0 <= i < |s'.stacks[u]| ensures FrameOk(g, s', u, i) {
      assert FrameOk(g, s, u, i);
      assert ClassOk(g, s, c);
    }
    forall d | 0 <= d < g.classes ensures ClassOk(g, s', d) { assert ClassOk(g, s, d); }
  }

  /** Every step of every thread keeps the invariant and moves no status back. */
  lemma NextKeeps(g: Config, s: State, t: nat, a: Action)
    requires Inv(g, s) && !g.waitThrows && t < g.threads && Next(g, s, t, a).Some?
    ensures Inv(g, Next(g, s, t, a).value) && AllForward(g, s, Next(g, s, t, a).value)
  {
    match a
    case Call(c) => PushKeeps(g, s, t, c);
    case Step(yes, v) => StepKeeps(g, s, t, yes, v);
    case VerifyElsewhere(c, v) => OutsideKeeps(g, s, c, v);
    case Link(c, ok) => OutsideKeeps(g, s, c, if ok then Resolved else Error);
  }

  // ---- whole runs ----

  datatype Move = Move(thread: nat, action: Action)

  /** `states` is a run taken by `moves`: each state is the next step of the one before. */
  ghost predicate Run(g: Config, states: seq<State>, moves: seq<Move>) {
    && |states| == |moves| + 1 && Init(g, states[0])
    && forall i :: 0 <= i < |moves| ==>
         && Shape(g, states[i]) && moves[i].thread < g.threads
         && Next(g, states[i], moves[i].thread, moves[i].action) == Some(states[i + 1])
  }

  lemma {:induction false} RunKeeps(g: Config, states: seq<State>, moves: seq<Move>, i: nat)
    requires !g.waitThrows && Run(g, states, moves) && i < |states|
    ensures Inv(g, states[i])
  {
    if i > 0 {
      RunKeeps(g, states, moves, i - 1);
      NextKeeps(g, states[i - 1], moves[i - 1].thread, moves[i - 1].action);
    }
  }

  lemma {:induction false} RunForward(g: Config, states: seq<State>, moves: seq<Move>, i: nat, j: nat, c: nat)
    requires !g.waitThrows && Run(g, states, moves) && i <= j < |states| && c < g.classes
    ensures Shape(g, states[i]) && Shape(g, states[j])
    ensures Forward(states[i].classes[c].status, states[j].classes[c].status)
    decreases j
  {
    RunKeeps(g, states, moves, i);
    RunKeeps(g, states, moves, j);
    if i < j {
      RunForward(g, states, moves, i, j - 1, c);
      RunKeeps(g, states, moves, j - 1);
      NextKeeps(g, states[j - 1], moves[j - 1].thread, moves[j - 1].action);
    }
  }

  /** In every run, Initialized and Error are never left and `<clinit>` is entered at most once. */
  lemma FinalStatuses(g: Config, states: seq<State>, moves: seq<Move>, i: nat, j: nat, c: nat)
    requires !g.waitThrows && Run(g, states, moves) && i <= j < |states| && c < g.classes
    ensures Shape(g, states[i]) && Shape(g, states[j])
    ensures states[i].classes[c].status.Initialized? ==> states[j].classes[c].status.Initialized?
    ensures states[i].classes[c].status.Error? ==> states[j].classes[c].status.Error?
    ensures states[j].classes[c].runs <= 1
  {
    RunForward(g, states, moves, i, j, c);
    RunKeeps(g, states, moves, j);
    assert ClassOk(g, states[j], c);
  }

  /** What a result tells the caller, in every run. */
  lemma ResultMeaning(g: Config, states: seq<State>, moves: seq<Move>, i: nat)
    requires !g.waitThrows && Run(g, states, moves) && i < |states| && states[i].event.Returned?
    ensures var e := states[i].event;
      && Shape(g, states[i]) && e.cls < g.classes
      && Meaning(g, states[i].classes[e.cls], e.thread, e.ok, e.refused)
  {
    RunKeeps(g, states, moves, i);
  }

  /** A woken waiter always finds one of the statuses it handles, so it never aborts the runtime. */
  lemma WokenNeverAborts(g: Config, states: seq<State>, moves: seq<Move>, i: nat, t: nat, yes: bool, v: Status)
    requires !g.waitThrows && Run(g, states, moves) && i < |states|
    requires Shape(g, states[i]) && t < g.threads && states[i].stacks[t] != [] && Top(states[i], t).pc.Woken?
    ensures Runnable(g, states[i], t) && Advance(g, states[i], t, yes, v).Some?
  {
    RunKeeps(g, states, moves, i);
    var s := states[i];
    forall f | f in s.stacks[t] ensures f.cls < g.classes {
      var k :| 0 <= k < |s.stacks[t]| && s.stacks[t][k] == f;
      assert FrameOk(g, s, t, k);
    }
    assert FrameOk(g, s, t, |s.stacks[t]| - 1);
  }

  /**
   * While a class's `<clinit>` runs, its superclass is initialized or is being initialized by
   * that same thread further down its stack, and no other thread runs the same `<clinit>`.
   */
  lemma ClinitAfterSuper(g: Config, states: seq<State>, moves: seq<Move>, i: nat, t: nat, k: nat)
    requires !g.waitThrows && Run(g, states, moves) && i < |states| && Shape(g, states[i])
    requires t < g.threads && k < |states[i].stacks[t]| && states[i].stacks[t][k].pc.InClinit?
    ensures var c := states[i].stacks[t][k].cls;
      && c < g.classes && states[i].classes[c].status.Initializing?
      && (g.HasSuper(c) ==> Ready(states[i].classes[g.supers[c].value], t, k))
      && (forall u, m ::
            0 <= u < g.threads && 0 <= m < |states[i].stacks[u]| && states[i].stacks[u][m] == Frame(c, InClinit)
            ==> u == t && m == k)
  {
    RunKeeps(g, states, moves, i);
    var s := states[i];
    assert FrameOk(g, s, t, k);
    forall u, m | 0 <= u < g.threads && 0 <= m < |s.stacks[u]| && s.stacks[u][m] == Frame(s.stacks[t][k].cls, InClinit)
      ensures u == t && m == k
    {
      assert FrameOk(g, s, u, m);
    }
  }

  // ---- `<clinit>` runs exactly once, and its exceptions count ----

  /** `<clinit>` has run once if the class has one and was initialized since the start, or is past it. */
  ghost predicate ClassRuns(g: Config, was: Status, c: nat, x: Class) {
    && (c !in g.clinits ==> x.runs == 0)
    && (c in g.clinits && x.status.Initialized? && !was.Initialized? ==> x.runs == 1)
  }

  ghost predicate FrameRuns(g: Config, f: Frame, x: Class) {
    && (f.pc.InClinit? ==> f.cls in g.clinits && x.runs == 1)
    && (f.pc.Finish? && f.cls in g.clinits ==> x.runs == 1)
    && (f.pc.Finish? && f.pc.threw ==> f.cls in g.clinits)
  }

  ghost predicate AllRuns(g: Config, first: State, s: State)
    requires Shape(g, first) && Shape(g, s)
  {
    && (forall c :: 0 <= c < g.classes ==> ClassRuns(g, first.classes[c].status, c, s.classes[c]))
    && (forall t, i :: 0 <= t < g.threads && 0 <= i < |s.stacks[t]| && s.stacks[t][i].cls < g.classes ==>
          FrameRuns(g, s.stacks[t][i], s.classes[s.stacks[t][i].cls]))
  }

  /** A step that leaves the top call at `pc` and its class as `y`. */
  lemma GotoRuns(g: Config, first: State, s: State, t: nat, y: Class, pc: Pc)
    requires Shape(g, first) && Inv(g, s) && AllRuns(g, first, s) && Runnable(g, s, t)
    requires var c := Top(s, t).cls;
      && ClassRuns(g, first.classes[c].status, c, y) && FrameRuns(g, Frame(c, pc), y)
      && (y.runs != s.classes[c].runs ==> Owns(Top(s, t).pc))
    ensures AllRuns(g, first, Goto(g, s, t, y, pc))
  {
    var s', k := Goto(g, s, t, y, pc), |s.stacks[t]| - 1;
    forall u, i | 0 <= u < g.threads && 0 <= i < |s'.stacks[u]| && s'.stacks[u][i].cls < g.classes
      ensures FrameRuns(g, s'.stacks[u][i], s'.classes[s'.stacks[u][i].cls])
    {
      assert FrameOk(g, s, u, i) && FrameOk(g, s, t, k);
      assert FrameRuns(g, s.stacks[u][i], s.classes[s.stacks[u][i].cls]);
    }
  }

  lemma ReturnRuns(g: Config, first: State, s: State, t: nat, y: Class, ok: bool, refused: bool)
    requires Shape(g, first) && Inv(g, s) && AllRuns(g, first, s) && Runnable(g, s, t)
    requires Return(g, s, t, y, ok, refused).Some?
    requires var c := Top(s, t).cls; ClassRuns(g, first.classes[c].status, c, y) && y.runs == s.classes[c].runs
    ensures AllRuns(g, first, Return(g, s, t, y, ok, refused).value)
  {
    var s' := Return(g, s, t, y, ok, refused).value;
    forall u, i | 0 <= u < g.threads && 0 <= i < |s'.stacks[u]| && s'.stacks[u][i].cls < g.classes
      ensures FrameRuns(g, s'.stacks[u][i], s'.classes[s'.stacks[u][i].cls])
    {
      assert FrameRuns(g, s.stacks[u][i], s.classes[s.stacks[u][i].cls]);
    }
  }

  lemma PushRuns(g: Config, first: State, s: State, t: nat, c: nat)
    requires Shape(g, first) && Shape(g, s) && AllRuns(g, first, s) && t < g.threads
    ensures AllRuns(g, first, Push(s, t, c))
  {
    var s' := Push(s, t, c);
    forall u, i | 0 <= u < g.threads && 0 <= i < |s'.stacks[u]| && s'.stacks[u][i].cls < g.classes
      ensures FrameRuns(g, s'.stacks[u][i], s'.classes[s'.stacks[u][i].cls])
    {
      if u != t || i < |s.stacks[t]| {
        assert FrameRuns(g, s.stacks[u][i], s.classes[s.stacks[u][i].cls]);
      }
    }
  }

  lemma StepRuns(g: Config, first: State, s: State, t: nat, yes: bool, v: Status)
    requires Shape(g, first) && Inv(g, s) && AllRuns(g, first, s) && Runnable(g, s, t) && !g.waitThrows
    requires Advance(g, s, t, yes, v).Some?
    ensures AllRuns(g, first, Advance(g, s, t, yes, v).value)
  {
    var c, k := Top(s, t).cls, |s.stacks[t]| - 1;
    var x := s.classes[c];
    assert FrameOk(g, s, t, k) && ClassOk(g, s, c) && ClassRuns(g, first.classes[c].status, c, x);
    assert FrameRuns(g, s.stacks[t][k], x);
    hide Inv, AllRuns, Goto, Return, Push, FrameOk, ClassOk, Ready;
    match Top(s, t).pc {
      case Entry =>
        if x.status.Initialized? || !yes {
          ReturnRuns(g, first, s, t, x, x.status.Initialized?, !x.status.Initialized?);
        } else {
          GotoRuns(g, first, s, t, x, Locking);
        }
      case Locking => GotoRuns(g, first, s, t, x.(owner := Some(t)), Locked);
      case Locked => LockedRuns(g, first, s, t, v);
      case Checked =>
        if x.status.Initializing? && x.clinitThread == t {
          ReturnRuns(g, first, s, t, x.(owner := None), true, false);
        } else if x.status.Initializing? {
          GotoRuns(g, first, s, t, x.(owner := None), Waiting);
        } else if !yes {
          ReturnRuns(g, first, s, t, x.(status := Error, owner := None), false, false);
        } else {
          GotoRuns(g, first, s, t, x, Claim);
        }
      case Claim =>
        GotoRuns(g, first, s, t, x.(status := Initializing, owner := None, clinitThread := t, depth := k), Super);
      case Waiting => GotoRuns(g, first, s, t, x.(owner := Some(t)), Woken);
      case Woken =>
        if x.status.Initializing? {
          GotoRuns(g, first, s, t, x.(owner := None), Waiting);
        } else {
          ReturnRuns(g, first, s, t, x.(owner := None), x.status.Initialized?, false);
        }
      case Super => SuperRuns(g, first, s, t);
      case SuperFailed => ReturnRuns(g, first, s, t, x.(status := Error), false, false);
      case Clinit =>
        if c in g.clinits {
          GotoRuns(g, first, s, t, x.(runs := x.runs + 1), InClinit);
        } else {
          GotoRuns(g, first, s, t, x, Finish(false));
        }
      case InClinit => GotoRuns(g, first, s, t, x, Finish(yes));
      case Finish(threw) =>
        ReturnRuns(g, first, s, t, x.(status := if threw then Error else Initialized), !threw, false);
    }
  }

  lemma LockedRuns(g: Config, first: State, s: State, t: nat, v: Status)
    requires Shape(g, first) && Inv(g, s) && AllRuns(g, first, s) && Runnable(g, s, t) && Top(s, t).pc.Locked?
    requires AdvanceLocked(g, s, t, s.classes[Top(s, t).cls], v).Some?
    ensures AllRuns(g, first, AdvanceLocked(g, s, t, s.classes[Top(s, t).cls], v).value)
  {
    var c := Top(s, t).cls;
    var x := s.classes[c];
    assert ClassRuns(g, first.classes[c].status, c, x);
    hide Inv, AllRuns, Goto, Return;
    if x.status.Initialized? || x.status.Error? {
      ReturnRuns(g, first, s, t, x.(owner := None), x.status.Initialized?, false);
    } else if Unverified(x.status) && !v.Verified? {
      ReturnRuns(g, first, s, t, x.(status := v, owner := None), false, false);
    } else {
      GotoRuns(g, first, s, t, if Unverified(x.status) then x.(status := v) else x, Checked);
    }
  }

  lemma SuperRuns(g: Config, first: State, s: State, t: nat)
    requires Shape(g, first) && Inv(g, s) && AllRuns(g, first, s) && Runnable(g, s, t) && Top(s, t).pc.Super?
    ensures var (c, x) := (Top(s, t).cls, s.classes[Top(s, t).cls]);
      && AllRuns(g, first, Goto(g, s, t, x, Clinit))
      && (g.HasSuper(c) ==> AllRuns(g, first, Push(Goto(g, s, t, x, SuperCall), t, g.supers[c].value)))
  {
    var c := Top(s, t).cls;
    var x := s.classes[c];
    assert ClassRuns(g, first.classes[c].status, c, x);
    GotoRuns(g, first, s, t, x, Clinit);
    GotoRuns(g, first, s, t, x, SuperCall);
    if g.HasSuper(c) {
      PushRuns(g, first, Goto(g, s, t, x, SuperCall), t, g.supers[c].value);
    }
  }

  lemma {:induction false} RunRuns(g: Config, states: seq<State>, moves: seq<Move>, i: nat)
    requires !g.waitThrows && Run(g, states, moves) && i < |states|
    ensures Inv(g, states[i]) && AllRuns(g, states[0], states[i])
  {
    RunKeeps(g, states, moves, i);
    if i > 0 {
      RunRuns(g, states, moves, i - 1);
      var s, t, a := states[i - 1], moves[i - 1].thread, moves[i - 1].action;
      assert Next(g, s, t, a) == Some(states[i]);
      match a {
        case Call(c) => PushRuns(g, states[0], s, t, c);
        case Step(yes, v) => StepRuns(g, states[0], s, t, yes, v);
        case VerifyElsewhere(c, v) => OutsideRuns(g, states[0], s, c, v);
        case Link(c, ok) => OutsideRuns(g, states[0], s, c, if ok then Resolved else Error);
      }
    }
  }

  lemma OutsideRuns(g: Config, first: State, s: State, c: nat, v: Status)
    requires Shape(g, first) && Shape(g, s) && AllRuns(g, first, s) && c < g.classes && !v.Initialized?
    ensures AllRuns(g, first, s.(classes := s.classes[c := s.classes[c].(status := v)], event := Nothing))
  {
    var s' := s.(classes := s.classes[c := s.classes[c].(status := v)], event := Nothing);
    forall u, i | 0 <= u < g.threads && 0 <= i < |s'.stacks[u]| && s'.stacks[u][i].cls < g.classes
      ensures FrameRuns(g, s'.stacks[u][i], s'.classes[s'.stacks[u][i].cls])
    {
      assert FrameRuns(g, s.stacks[u][i], s.classes[s.stacks[u][i].cls]);
    }
    forall d | 0 <= d < g.classes ensures ClassRuns(g, first.classes[d].status, d, s'.classes[d]) {
      assert ClassRuns(g, first.classes[d].status, d, s.classes[d]);
    }
  }

  /** In every run a class that became initialized has run its `<clinit>` exactly once, if it has one. */
  lemma ClinitRunsOnce(g: Config, states: seq<State>, moves: seq<Move>, j: nat, c: nat)
    requires !g.waitThrows && Run(g, states, moves) && j < |states| && c < g.classes
    ensures Shape(g, states[0]) && Shape(g, states[j])
    ensures c in g.clinits && states[j].classes[c].status.Initialized? && !states[0].classes[c].status.Initialized? ==>
      states[j].classes[c].runs == 1
    ensures c !in g.clinits ==> states[j].classes[c].runs == 0
  {
    RunRuns(g, states, moves, j);
    assert ClassRuns(g, states[0].classes[c].status, c, states[j].classes[c]);
  }

  /** Thread `t` is running the `<clinit>` of class `c`. */
  ghost predicate RunsClinit(s: State, t: nat, c: nat) {
    t < |s.stacks| && Frame(c, InClinit) in s.stacks[t]
  }

  /** A `<clinit>` is counted by the step that enters it. */
  lemma Counted(g: Config, s: State, t: nat, a: Action, c: nat)
    requires g.Valid() && Shape(g, s) && t < g.threads && Next(g, s, t, a).Some? && c < g.classes
    ensures var s' := Next(g, s, t, a).value;
      Shape(g, s') && (s'.classes[c].runs == s.classes[c].runs || RunsClinit(s', t, c))
  {
    if a.Step? && Runnable(g, s, t) && Top(s, t).pc.Clinit? && Top(s, t).cls == c && c in g.clinits {
      var s', k := Next(g, s, t, a).value, |s.stacks[t]| - 1;
      assert s'.stacks[t][k] == Frame(c, InClinit);
    }
  }

  /** What was counted was run: some thread was in the `<clinit>` before. */
  lemma {:induction false} CountedWasRun(g: Config, states: seq<State>, moves: seq<Move>, j: nat, c: nat)
    returns (k: nat, t: nat)
    requires !g.waitThrows && Run(g, states, moves) && j < |states| && c < g.classes && Shape(g, states[j])
    requires states[j].classes[c].runs > 0
    ensures k <= j && RunsClinit(states[k], t, c)
  {
    k, t := 0, 0;
    if j > 0 {
      RunKeeps(g, states, moves, j - 1);
      hide Next, Inv, Init;
      assert Next(g, states[j - 1], moves[j - 1].thread, moves[j - 1].action) == Some(states[j]);
      Counted(g, states[j - 1], moves[j - 1].thread, moves[j - 1].action, c);
      if RunsClinit(states[j], moves[j - 1].thread, c) {
        k, t := j, moves[j - 1].thread;
      } else {
        k, t := CountedWasRun(g, states, moves, j - 1, c);
      }
    }
  }

  /** The `<clinit>` of class `c` threw in thread `t`: the class is erroneous, or the call is about to make it so. */
  ghost predicate Threw(g: Config, s: State, t: nat, c: nat)
    requires Shape(g, s) && t < g.threads && c < g.classes
  {
    || s.classes[c].status.Error?
    || (&& s.classes[c].status.Initializing? && s.classes[c].clinitThread == t && s.stacks[t] != []
        && Top(s, t) == Frame(c, Finish(true)))
  }

  lemma ThrewStays(g: Config, s: State, t: nat, c: nat, u: nat, a: Action)
    requires Inv(g, s) && !g.waitThrows && t < g.threads && c < g.classes && u < g.threads && Next(g, s, u, a).Some?
    requires Threw(g, s, t, c)
    ensures var s' := Next(g, s, u, a).value; Shape(g, s') && Threw(g, s', t, c)
    ensures var e := Next(g, s, u, a).value.event; e.Returned? && e.thread == t && e.cls == c ==> !e.ok
  {
    NextKeeps(g, s, u, a);
    var s' := Next(g, s, u, a).value;
    assert Forward(s.classes[c].status, s'.classes[c].status);
    if s.classes[c].status.Initializing? {
      if u != t {
        OthersWait(g, s, t, c, u, a);
      }
    }
    if s'.event.Returned? && s'.event.thread == t && s'.event.cls == c {
      assert EventOk(g, s');
      assert s.classes[c].status.Initializing? ==> u == t;
    }
  }

  /** A class that one thread is initializing is changed by no other. */
  lemma OthersWait(g: Config, s: State, t: nat, c: nat, u: nat, a: Action)
    requires Inv(g, s) && !g.waitThrows && t < g.threads && c < g.classes && u < g.threads && u != t
    requires Next(g, s, u, a).Some?
    requires s.classes[c].status.Initializing? && s.classes[c].clinitThread == t
    ensures var s' := Next(g, s, u, a).value;
      && Shape(g, s') && s'.stacks[t] == s.stacks[t] && s'.classes[c].status.Initializing?
      && s'.classes[c].clinitThread == t
      && (s'.event.Returned? ==> s'.event.thread == u)
  {
    if a.Step? && Runnable(g, s, u) {
      assert FrameOk(g, s, u, |s.stacks[u]| - 1);
    }
  }

  /** In every run, a class whose `<clinit>` threw is never initialized, and the call that ran it returns false. */
  lemma {:induction false} ThrownIsError(g: Config, states: seq<State>, moves: seq<Move>, i: nat, j: nat, t: nat,
                                         c: nat)
    requires !g.waitThrows && Run(g, states, moves) && i < j < |states| && t < g.threads && c < g.classes
    requires moves[i].thread == t && moves[i].action.Step? && moves[i].action.yes
    requires Shape(g, states[i]) && states[i].stacks[t] != [] && Top(states[i], t) == Frame(c, InClinit)
    ensures Shape(g, states[j]) && Threw(g, states[j], t, c) && !states[j].classes[c].status.Initialized?
    ensures states[j].event.Returned? && states[j].event.thread == t && states[j].event.cls == c ==> !states[j].event.ok
    decreases j
  {
    var k := j - 1;
    RunKeeps(g, states, moves, k);
    assert Next(g, states[k], moves[k].thread, moves[k].action) == Some(states[j]);
    if k == i {
      assert FrameOk(g, states[i], t, |states[i].stacks[t]| - 1);
    } else {
      ThrownIsError(g, states, moves, i, k, t, c);
      ThrewStays(g, states[k], t, c, moves[k].thread, moves[k].action);
    }
  }

  /**
   * Thread `t` is past the superclass of `c`, and `<clinit>` has not thrown: the class is
   * initialized, or the call at its place in the stack is on the way to it.
   */
  ghost predicate Succeeds(g: Config, s: State, t: nat, c: nat)
    requires Shape(g, s) && t < g.threads && c < g.classes
  {
    var x := s.classes[c];
    || x.status.Initialized?
    || (&& x.status.Initializing? && x.clinitThread == t && x.depth < |s.stacks[t]|
        && var f := s.stacks[t][x.depth]; f.cls == c && (f.pc.Clinit? || f.pc.InClinit? || f.pc == Finish(false)))
  }

  /** This step is the one in which the `<clinit>` of class `c` throws. */
  ghost predicate Throws(s: State, t: nat, a: Action, c: nat)
    requires t < |s.stacks|
  {
    a.Step? && a.yes && s.stacks[t] != [] && Top(s, t) == Frame(c, InClinit)
  }

  lemma SucceedsStays(g: Config, s: State, t: nat, c: nat, u: nat, a: Action)
    requires Inv(g, s) && !g.waitThrows && t < g.threads && c < g.classes && u < g.threads && Next(g, s, u, a).Some?
    requires Succeeds(g, s, t, c) && !Throws(s, u, a, c)
    ensures var s' := Next(g, s, u, a).value; Shape(g, s') && Succeeds(g, s', t, c)
  {
    NextKeeps(g, s, u, a);
    var s' := Next(g, s, u, a).value;
    assert Forward(s.classes[c].status, s'.classes[c].status);
    if s.classes[c].status.Initializing? {
      if u != t {
        OthersWait(g, s, t, c, u, a);
        assert ClassOk(g, s, c) && ClassOk(g, s', c);
        OwnerPlace(g, s', t, c, s.classes[c].depth);
      } else if a.Step? && Runnable(g, s, t) {
        OwnStep(g, s, t, c, a);
      }
    }
  }

  lemma OwnerPlace(g: Config, s: State, t: nat, c: nat, i: nat)
    requires Inv(g, s) && t < g.threads && c < g.classes && i < |s.stacks[t]| && s.stacks[t][i].cls == c
    requires Owns(s.stacks[t][i].pc)
    ensures s.classes[c].depth == i
  {
    assert FrameOk(g, s, t, i);
  }

  lemma OwnStep(g: Config, s: State, t: nat, c: nat, a: Action)
    requires Inv(g, s) && !g.waitThrows && t < g.threads && c < g.classes && Runnable(g, s, t) && a.Step?
    requires Next(g, s, t, a).Some?
    requires Succeeds(g, s, t, c) && s.classes[c].status.Initializing? && !Throws(s, t, a, c)
    ensures var s' := Next(g, s, t, a).value; Shape(g, s') && Succeeds(g, s', t, c)
  {
    var k, d := |s.stacks[t]| - 1, s.classes[c].depth;
    assert FrameOk(g, s, t, k) && FrameOk(g, s, t, d);
    hide Inv, Ready;
    if d < k {
      BelowTop(g, s, t, c, a.yes, a.verdict);
    }
  }

  /** The call at the top leaves alone a class that a call further down is initializing. */
  lemma BelowTop(g: Config, s: State, t: nat, c: nat, yes: bool, v: Status)
    requires g.Valid() && Shape(g, s) && !g.waitThrows && t < g.threads && c < g.classes && Runnable(g, s, t)
    requires Advance(g, s, t, yes, v).Some? && FrameOk(g, s, t, |s.stacks[t]| - 1)
    requires s.classes[c].status.Initializing? && s.classes[c].clinitThread == t
    requires s.classes[c].depth < |s.stacks[t]| - 1
    requires s.stacks[t][s.classes[c].depth] == Frame(c, InClinit)
    ensures var s', x := Advance(g, s, t, yes, v).value, s.classes[c];
      && Shape(g, s') && s'.classes[c].status.Initializing? && s'.classes[c].clinitThread == t
      && s'.classes[c].depth == x.depth
      && x.depth < |s'.stacks[t]| && s'.stacks[t][x.depth] == Frame(c, InClinit)
  {
    hide Ready, Unwind;
    var d := s.classes[c].depth;
    assert Unwind(s.stacks[t], true)[..d + 1] == s.stacks[t][..d + 1] by { UnwindLeaves(s.stacks[t], true, d); }
    assert Unwind(s.stacks[t], false)[..d + 1] == s.stacks[t][..d + 1] by { UnwindLeaves(s.stacks[t], false, d); }
    match Top(s, t).pc
    case Entry =>
    case Locking =>
    case Locked =>
    case Checked =>
    case Claim =>
    case Waiting =>
    case Woken =>
    case Super =>
    case _ =>
  }

  lemma UnwindLeaves(stack: seq<Frame>, ok: bool, d: nat)
    requires d < |stack| - 1 && stack[d].pc.InClinit?
    ensures |Unwind(stack, ok)| == |stack| - 1 && Unwind(stack, ok)[..d + 1] == stack[..d + 1]
  {
  }

  /**
   * In every run, an initialization that got past the superclass and does not throw ends with the
   * class initialized.
   */
  lemma {:induction false} NotThrownIsInitialized(g: Config, states: seq<State>, moves: seq<Move>, i: nat, j: nat,
                                                  t: nat, c: nat)
    requires !g.waitThrows && Run(g, states, moves) && i <= j < |states| && t < g.threads && c < g.classes
    requires Shape(g, states[i]) && Succeeds(g, states[i], t, c)
    requires forall k :: i <= k < j ==>
      moves[k].thread < |states[k].stacks| && !Throws(states[k], moves[k].thread, moves[k].action, c)
    ensures Shape(g, states[j]) && Succeeds(g, states[j], t, c)
    ensures states[j].stacks[t] == [] ==> states[j].classes[c].status.Initialized?
    decreases j
  {
    if i < j {
      NotThrownIsInitialized(g, states, moves, i, j - 1, t, c);
      RunKeeps(g, states, moves, j - 1);
      assert Next(g, states[j - 1], moves[j - 1].thread, moves[j - 1].action) == Some(states[j]);
      SucceedsStays(g, states[j - 1], t, c, moves[j - 1].thread, moves[j - 1].action);
    }
  }

  // ---- what comes before initialization ----

  /** Statuses go through Verified on the way to being initialized, and through Initializing to Initialized. */
  lemma OneAtATime(g: Config, s: State, t: nat, a: Action, c: nat)
    requires Inv(g, s) && !g.waitThrows && t < g.threads && Next(g, s, t, a).Some? && c < g.classes
    ensures var x, y := s.classes[c].status, Next(g, s, t, a).value.classes[c].status;
      && (y.Initializing? && x != y ==> x.Verified?)
      && (y.Initialized? && x != y ==> x.Initializing?)
  {
    if a.Step? && Runnable(g, s, t) {
      assert FrameOk(g, s, t, |s.stacks[t]| - 1);
    }
  }

  /** In every run a class that got initialized, or began to be, was verified before. */
  lemma {:induction false} VerifiedBefore(g: Config, states: seq<State>, moves: seq<Move>, j: nat, c: nat)
    returns (k: nat)
    requires !g.waitThrows && Run(g, states, moves) && j < |states| && c < g.classes && Shape(g, states[j])
    requires states[j].classes[c].status.Initializing? || states[j].classes[c].status.Initialized?
    requires !states[0].classes[c].status.Initialized?
    ensures k < j && Shape(g, states[k]) && states[k].classes[c].status.Verified?
  {
    var i := j - 1;
    RunKeeps(g, states, moves, i);
    hide Next, Inv;
    assert Next(g, states[i], moves[i].thread, moves[i].action) == Some(states[j]);
    OneAtATime(g, states[i], moves[i].thread, moves[i].action, c);
    if states[i].classes[c].status.Verified? {
      k := i;
    } else {
      k := VerifiedBefore(g, states, moves, i, c);
    }
  }

  /** When a class becomes initialized, its superclass is, or the same thread is initializing it. */
  lemma SuperBefore(g: Config, states: seq<State>, moves: seq<Move>, i: nat, c: nat)
    requires !g.waitThrows && Run(g, states, moves) && i < |moves| && g.HasSuper(c)
    requires Shape(g, states[i]) && Shape(g, states[i + 1])
    requires !states[i].classes[c].status.Initialized? && states[i + 1].classes[c].status.Initialized?
    ensures var above := states[i].classes[g.supers[c].value];
      above.status.Initialized? || (above.status.Initializing? && above.clinitThread == moves[i].thread)
  {
    RunKeeps(g, states, moves, i);
    var s, t, a := states[i], moves[i].thread, moves[i].action;
    assert Next(g, s, t, a) == Some(states[i + 1]);
    if a.Step? && Runnable(g, s, t) {
      assert FrameOk(g, s, t, |s.stacks[t]| - 1);
    }
  }

  // ---- no step aborts ----

  predicate IsVerified(s: Status) { Rank(s) >= Rank(Verified) }

  /** No class is verified ahead of a superclass that is not erroneous. */
  ghost predicate SupersFirst(g: Config, s: State)
    requires g.Valid() && Shape(g, s)
  {
    forall c :: 0 <= c < g.classes && g.supers[c].Some? && IsVerified(s.classes[c].status) ==>
      var above := s.classes[g.supers[c].value].status; IsVerified(above) || above.Error?
  }

  /**
   * Verification goes superclass first, as `VerifyClass` does it: what becomes verified has a
   * superclass that is verified or has failed meanwhile.
   */
  ghost predicate InOrder(g: Config, s: State, s': State)
    requires g.Valid() && Shape(g, s) && Shape(g, s')
  {
    forall c ::
      0 <= c < g.classes && g.supers[c].Some? && IsVerified(s'.classes[c].status) &&
        !IsVerified(s.classes[c].status) ==>
      var above := s.classes[g.supers[c].value].status; IsVerified(above) || above.Error?
  }

  ghost predicate VerifiedInOrder(g: Config, states: seq<State>) {
    && g.Valid() && states != [] && (forall i :: 0 <= i < |states| ==> Shape(g, states[i])) && SupersFirst(g, states[0])
    && forall i :: 0 <= i < |states| - 1 ==> InOrder(g, states[i], states[i + 1])
  }

  lemma {:induction false} RunSupersFirst(g: Config, states: seq<State>, moves: seq<Move>, i: nat)
    requires !g.waitThrows && Run(g, states, moves) && VerifiedInOrder(g, states) && i < |states|
    ensures SupersFirst(g, states[i])
  {
    if i > 0 {
      RunSupersFirst(g, states, moves, i - 1);
      RunKeeps(g, states, moves, i - 1);
      hide Inv, Next, SupersFirst, InOrder, Init;
      assert Next(g, states[i - 1], moves[i - 1].thread, moves[i - 1].action) == Some(states[i]);
      NextKeeps(g, states[i - 1], moves[i - 1].thread, moves[i - 1].action);
      OrderKeeps(g, states[i - 1], states[i]);
    }
  }

  lemma OrderKeeps(g: Config, s: State, s': State)
    requires g.Valid() && Shape(g, s) && Shape(g, s') && SupersFirst(g, s) && InOrder(g, s, s') && AllForward(g, s, s')
    ensures SupersFirst(g, s')
  {
  }

  /**
   * The top call has to wait: for a monitor, for its superclass, or for a verdict; or its class is
   * not even resolved.
   */
  ghost predicate Blocked(g: Config, s: State, t: nat, v: Status)
    requires Runnable(g, s, t)
  {
    var x := s.classes[Top(s, t).cls];
    match Top(s, t).pc
    case Locking => x.owner.Some?
    case Waiting => x.owner.Some?
    case SuperFailed => x.owner.Some?
    case Finish(_) => x.owner.Some?
    case Locked => x.status.Unresolved? || (Unverified(x.status) && !Verdict(g, v))
    case SuperCall => true
    case _ => false
  }

  /** A call on behalf of a subclass is turned away by `CanWeInitializeClass`. */
  ghost predicate RefusedSuper(g: Config, s: State, t: nat, yes: bool)
    requires Runnable(g, s, t)
  {
    var k := |s.stacks[t]| - 1;
    Top(s, t).pc.Entry? && !yes && k > 0 && s.stacks[t][k - 1].pc.SuperCall?
  }

  /**
   * In every run with verification in order, a step of `InitializeClass` that does not have to wait
   * is taken: the checks on the way hold. The one exception is a superclass call that was refused,
   * which leaves the superclass without an error.
   */
  lemma NeverAborts(g: Config, states: seq<State>, moves: seq<Move>, i: nat, t: nat, yes: bool, v: Status)
    requires !g.waitThrows && Run(g, states, moves) && VerifiedInOrder(g, states) && i < |states|
    requires Runnable(g, states[i], t)
    ensures Advance(g, states[i], t, yes, v).Some? || Blocked(g, states[i], t, v) || RefusedSuper(g, states[i], t, yes)
  {
    RunKeeps(g, states, moves, i);
    RunSupersFirst(g, states, moves, i);
    StepTaken(g, states[i], t, yes, v);
  }

  lemma StepTaken(g: Config, s: State, t: nat, yes: bool, v: Status)
    requires Inv(g, s) && SupersFirst(g, s) && !g.waitThrows && Runnable(g, s, t)
    ensures Advance(g, s, t, yes, v).Some? || Blocked(g, s, t, v) || RefusedSuper(g, s, t, yes)
  {
    var k := |s.stacks[t]| - 1;
    assert FrameOk(g, s, t, k);
    if k > 0 && s.stacks[t][k - 1].pc.SuperCall? {
      CalledForSubclass(g, s, t);
    }
    hide Inv, SupersFirst, Goto, Push, Unwind;
  }

  /** A class initialized on behalf of a subclass is verified or erroneous. */
  lemma CalledForSubclass(g: Config, s: State, t: nat)
    requires Inv(g, s) && SupersFirst(g, s) && Runnable(g, s, t)
    requires |s.stacks[t]| > 1 && s.stacks[t][|s.stacks[t]| - 2].pc.SuperCall?
    ensures var x := s.classes[Top(s, t).cls]; IsVerified(x.status) || x.status.Error?
  {
    assert FrameOk(g, s, t, |s.stacks[t]| - 2);
  }

  // ---- why waits must not throw ----

  const THROWING := Config(1, 2, [None], {}, {}, false, true)

  const GO := Step(true, Verified)

  function At(status: Status, owner: Option<nat>, a: seq<Frame>, b: seq<Frame>): State {
    State([Class(status, 0, owner, 0, 0)], [a, b], Nothing)
  }

  lemma SeqUpdates()
    ensures forall a: seq<Frame>, b: seq<Frame>, x: seq<Frame> {:trigger [a, b][0 := x]} :: [a, b][0 := x] == [x, b]
    ensures forall a: seq<Frame>, b: seq<Frame>, x: seq<Frame> {:trigger [a, b][1 := x]} :: [a, b][1 := x] == [a, x]
    ensures forall f: Frame, h: Frame {:trigger [f][0 := h]} :: [f][0 := h] == [h]
    ensures forall f: Frame {:trigger [f][..0]} :: [f][..0] == []
    ensures forall x: Class, y: Class {:trigger [x][0 := y]} :: [x][0 := y] == [y]
  {
  }

  /** Thread 0 initializes the class; thread 1 waits for it and its wait throws. */
  function BadState(i: nat): State {
    if i == 0 then At(Verified, None, [], [])
    else if i == 1 then At(Verified, None, [Frame(0, Entry)], [])
    else if i == 2 then At(Verified, None, [Frame(0, Locking)], [])
    else if i == 3 then At(Verified, Some(0), [Frame(0, Locked)], [])
    else if i == 4 then At(Verified, Some(0), [Frame(0, Checked)], [])
    else if i == 5 then At(Verified, Some(0), [Frame(0, Claim)], [])
    else if i == 6 then At(Initializing, None, [Frame(0, Super)], [])
    else if i == 7 then At(Initializing, None, [Frame(0, Clinit)], [])
    else if i == 8 then At(Initializing, None, [Frame(0, Finish(false))], [])
    else if i == 9 then At(Initializing, None, [Frame(0, Finish(false))], [Frame(0, Entry)])
    else if i == 10 then At(Initializing, None, [Frame(0, Finish(false))], [Frame(0, Locking)])
    else if i == 11 then At(Initializing, Some(1), [Frame(0, Finish(false))], [Frame(0, Locked)])
    else if i == 12 then At(Initializing, Some(1), [Frame(0, Finish(false))], [Frame(0, Checked)])
    else if i == 13 then At(Initializing, None, [Frame(0, Finish(false))], [Frame(0, Waiting)])
    else if i == 14 then At(Initializing, Some(1), [Frame(0, Finish(false))], [Frame(0, Woken)])
    else if i == 15 then At(Error, None, [Frame(0, Finish(false))], []).(event := Returned(1, 0, false, false))
    else At(Initialized, None, [], []).(event := Returned(0, 0, true, false))
  }

  function BadMove(i: nat): Move {
    Move(if 8 <= i < 15 then 1 else 0, if i == 0 || i == 8 then Call(0) else GO)
  }

  lemma BadStepOwner(i: nat)
    requires i < 8
    ensures Next(THROWING, BadState(i), 0, BadMove(i).action) == Some(BadState(i + 1))
  {
    SeqUpdates();
    assert [] + [Frame(0, Entry)] == [Frame(0, Entry)];
  }

  lemma BadStepWaiter(i: nat)
    requires 8 <= i < 13
    ensures Next(THROWING, BadState(i), BadMove(i).thread, BadMove(i).action) == Some(BadState(i + 1))
  {
    SeqUpdates();
    assert [] + [Frame(0, Entry)] == [Frame(0, Entry)];
  }

  lemma BadStepThrow(i: nat)
    requires 13 <= i < 16
    ensures Next(THROWING, BadState(i), BadMove(i).thread, BadMove(i).action) == Some(BadState(i + 1))
  {
    SeqUpdates();
  }

  /**
   * If a wait could return with an exception pending, the waiter would mark the class erroneous
   * and the initializing thread would then mark it initialized: Error would be left.
   */
  lemma ThrowingWaitLeavesError()
    ensures var states, moves := seq(17, i requires 0 <= i => BadState(i)), seq(16, i requires 0 <= i => BadMove(i));
      && THROWING.waitThrows && Run(THROWING, states, moves)
      && states[15].classes[0].status.Error? && states[16].classes[0].status.Initialized?
  {
    forall i | 0 <= i < 16
      ensures Next(THROWING, BadState(i), BadMove(i).thread, BadMove(i).action) == Some(BadState(i + 1))
    {
      if i < 8 { BadStepOwner(i); } else if i < 13 { BadStepWaiter(i); } else { BadStepThrow(i); }
    }
  }
}
