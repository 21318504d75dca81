/**
 The stage-only apply: render, upload, and poll until the switch serves a file
 that decodes to what was asked for.
 */
module Apply {
  import opened Wrappers
  import opened Text
  import opened TextCfg
  import opened TextEdit
  import opened EditFrame
  import opened Sections
  import opened VlanState
  import opened Grammar
  import opened Codec
  import opened Render
  import opened RenderFrame
  import opened BodyFacts
  import opened RoundTrip
  import opened PortTrip
  import opened NonInterference
  import opened Declarations

  // ---------------------------------------------------------------------
  // One poll
  // ---------------------------------------------------------------------

  /** What a re-fetched config must decode to. */
  datatype VerifyPlan = VerifyPlan(vlan: VLANState, vlanCheck: bool, ports: map<int, PortSettings>, portsCheck: bool)

  /** What the switch answers to one login and fetch. */
  datatype Served = LoginRefused | FetchFailed | File(raw: string)

  datatype FailureClass = InLogin | InFetch | InParse

  datatype Verdict = Transient(kind: FailureClass) | Drift | Match(diverged: bool)

  ghost function CanonicalText(raw: string): string {
    Join(Canonical(LinesOf(raw)), '\n')
  }

  /** The file decodes cleanly. */
  ghost predicate Clean(raw: string) {
    raw != "" && DecodeIssues(BodiesOf(LinesOf(raw))) == []
  }

  /** In every checked namespace the file decodes to what the plan wants. */
  ghost predicate Meets(plan: VerifyPlan, raw: string) {
    var b := BodiesOf(LinesOf(raw));
    && (plan.vlanCheck ==> EqualStates(DecodedState(b), plan.vlan))
    && (plan.portsCheck ==> DecodedSettings(b) == plan.ports)
  }

  ghost function Judge(plan: VerifyPlan, uploaded: string, served: Served): Verdict {
    match served
    case LoginRefused => Transient(InLogin)
    case FetchFailed => Transient(InFetch)
    case File(raw) =>
      if !Clean(raw) then Transient(InParse)
      else if !Meets(plan, raw) then Drift
      else Match(CanonicalText(raw) != CanonicalText(uploaded))
  }

  method Poll(plan: VerifyPlan, uploadedCanonical: string, served: Served, ghost uploaded: string) returns (v: Verdict)
    requires uploadedCanonical == CanonicalText(uploaded)
    ensures v == Judge(plan, uploaded, served)
  {
    hide Parsed, LinesOf, BodiesOf, DecodeIssues, DecodedState, DecodedSettings, EqualStates, Canonical, Join;
    match served {
      case LoginRefused => return Transient(InLogin);
      case FetchFailed => return Transient(InFetch);
      case File(raw) =>
        var parsed := ParseTextConfig(raw);
        if parsed.Err? {
          return Transient(InParse);
        }
        var tc := parsed.value;
        assert tc.raw == raw by { ParsedRaw(raw); }
        var dec := DecodeTextConfig(tc);
        Read(dec, tc);
        if dec.issues != [] {
          return Transient(InParse);
        }
        if plan.vlanCheck {
          var same := Equal(dec.state, plan.vlan);
          if !same {
            return Drift;
          }
        }
        if plan.portsCheck {
          var same := EqualPortSettings(dec.ports, plan.ports);
          if !same {
            return Drift;
          }
        }
        var bytes := CanonicalBytes(tc);
        return Match(bytes != uploadedCanonical);
    }
  }

  lemma ParsedRaw(raw: string)
    ensures Parsed(raw).raw == raw
  {
    hide LinesOf, TextCfg.Sections, TrimCR;
  }

  lemma Read(dec: Decoded, tc: TextConfig)
    requires IsDecoded(dec, BodiesIn(tc))
    ensures var b := BodiesOf(LinesOf(tc.raw));
            && dec.state == DecodedState(b) && dec.ports == DecodedSettings(b) && dec.issues == DecodeIssues(b)
            && forall name :: LinesIn(dec.portPass, name) == PassOf(b, name)
  {
    hide LinesOf, BodiesOf, DecodedState, DecodedSettings, DecodeIssues, LinesIn, PassOf, ForeignOf;
  }

  // ---------------------------------------------------------------------
  // The wait loop
  // ---------------------------------------------------------------------

  /** Durations of the wait; the driver fills in positive defaults. */
  datatype Timing = Timing(firstDelay: nat, timeout: nat, poll: nat)

  /** What happens around one attempt: its answer, the time it takes, and the sleep after it. */
  datatype Attempt = Attempt(served: Served, busy: nat, overslept: nat, cancelled: bool, interrupted: bool)

  datatype WaitResult =
    | Staged(diverged: bool)
    | Drifted
    | DeadlinePassed(lastClass: FailureClass)
    | Cancelled
    | BadUpload

  ghost predicate AllTransient(plan: VerifyPlan, uploaded: string, env: nat -> Attempt, n: nat) {
    forall k: nat :: k < n ==> Judge(plan, uploaded, env(k).served).Transient?
  }

  /** The caller gives up before attempt n, or in the sleep in front of it. */
  ghost predicate StoppedAt(env: nat -> Attempt, n: nat) {
    env(n).cancelled || (n > 0 && env(n - 1).interrupted)
  }

  /** A wait: when it begins, its durations, and what happens around its attempts. */
  datatype Wait = Wait(start: nat, timing: Timing, env: nat -> Attempt)

  /** The deadline counts from the end of the first delay. */
  ghost function Since(w: Wait): nat {
    w.start + w.timing.firstDelay + w.env(0).overslept
  }

  /** A sleep of one poll interval, never beyond the deadline. */
  ghost function Slept(w: Wait, now: nat): nat {
    var deadline := Since(w) + w.timing.timeout;
    if now + w.timing.poll < deadline then now + w.timing.poll else if now < deadline then deadline else now
  }

  /** When attempt n starts, if none before it ends the wait. */
  ghost function StartOf(w: Wait, n: nat): nat
    decreases n
  {
    if n == 0 then Since(w)
    else Slept(w, StartOf(w, n - 1) + w.env(n - 1).busy) + w.env(n - 1).overslept
  }

  ghost predicate OutOfTime(w: Wait, n: nat) {
    StartOf(w, n) >= Since(w) + w.timing.timeout
  }

  /** When attempt n is due there is time left, and the caller has not given up. */
  ghost predicate OnTime(w: Wait, n: nat) {
    !OutOfTime(w, n) && forall j: nat :: j <= n ==> !StoppedAt(w.env, j)
  }

  lemma {:induction false} StartsAscend(w: Wait, m: nat, n: nat)
    requires m <= n
    ensures StartOf(w, m) <= StartOf(w, n)
    decreases n
  {
    if m < n {
      StartsAscend(w, m, n - 1);
    }
  }

  lemma Ceiling(n: nat, poll: nat, timeout: nat)
    requires poll > 0 && timeout > 0 && n >= 1 && (n - 1) * poll < timeout
    ensures n <= (timeout + poll - 1) / poll
  {
    if (timeout + poll - 1) / poll < n {
      Product((timeout + poll - 1) / poll, n - 1, poll);
    }
  }

  lemma Product(a: int, b: int, c: nat)
    requires a <= b
    ensures a * c <= b * c
  {
  }

  /** Attempt k is the first that is not transient. */
  ghost predicate IsVerdictAt(plan: VerifyPlan, uploaded: string, env: nat -> Attempt, k: nat) {
    AllTransient(plan, uploaded, env, k) && !Judge(plan, uploaded, env(k).served).Transient?
  }

  /** The wait ended in front of attempt n: no attempt that is on time is left. */
  lemma TimeIsUp(w: Wait, n: nat)
    requires StoppedAt(w.env, n) || OutOfTime(w, n)
    ensures forall k: nat :: k >= n ==> !OnTime(w, k)
  {
    hide StoppedAt;
    forall k: nat | k >= n
      ensures !OnTime(w, k)
    {
      StartsAscend(w, n, k);
    }
  }

  lemma NextStart(w: Wait, n: nat)
    ensures StartOf(w, 0) == Since(w)
    ensures var done, deadline := StartOf(w, n) + w.env(n).busy, Since(w) + w.timing.timeout;
            if done >= deadline then StartOf(w, n + 1) >= deadline
            else
              var wait := if w.timing.poll > deadline - done then deadline - done else w.timing.poll;
              StartOf(w, n + 1) == done + wait + w.env(n).overslept
  {
    hide Since;
  }

  /** An attempt that starts in time is one of as many as poll intervals fit, rounded up. */
  lemma {:induction false} StartsLate(w: Wait, n: nat)
    requires !OutOfTime(w, n)
    ensures StartOf(w, n) >= Since(w) + n * w.timing.poll
    decreases n
  {
    NextStart(w, if n > 0 then n - 1 else 0);
    hide StartOf, Slept, Since;
    if n > 0 {
      StartsLate(w, n - 1);
      assert n * w.timing.poll == (n - 1) * w.timing.poll + w.timing.poll;
    }
  }

  lemma FewAttempts(w: Wait, n: nat)
    requires w.timing.poll > 0 && !OutOfTime(w, n)
    ensures n + 1 <= (w.timing.timeout + w.timing.poll - 1) / w.timing.poll
  {
    hide StartOf, Since;
    StartsLate(w, n);
    Ceiling(n + 1, w.timing.poll, w.timing.timeout);
  }

  /** A verdict is the only one. */
  lemma OneVerdict(plan: VerifyPlan, uploaded: string, env: nat -> Attempt, n: nat)
    requires AllTransient(plan, uploaded, env, n) && !Judge(plan, uploaded, env(n).served).Transient?
    ensures forall k: nat :: IsVerdictAt(plan, uploaded, env, k) ==> k == n
  {
    hide Judge;
  }

  /** A wait that ends without a verdict has missed none that was on time. */
  lemma NoneMissed(plan: VerifyPlan, uploaded: string, w: Wait, n: nat)
    requires AllTransient(plan, uploaded, w.env, n)
    requires StoppedAt(w.env, n) || OutOfTime(w, n)
    ensures forall k: nat :: IsVerdictAt(plan, uploaded, w.env, k) ==> !OnTime(w, k)
  {
    TimeIsUp(w, n);
    hide Judge, StoppedAt, OnTime, StartOf;
    assert forall k: nat :: k < n ==> !IsVerdictAt(plan, uploaded, w.env, k);
  }

  /**
   Polls until an attempt is not transient or the deadline passes. The answer is that
   of the last attempt, and every attempt before it was transient.
   */
  method WaitTransientAndVerify(plan: VerifyPlan, uploaded: string, start: nat, timing: Timing, env: nat -> Attempt)
    returns (r: WaitResult, attempts: nat, now: nat, deadline: nat)
    requires timing.poll > 0 && timing.timeout > 0
    ensures attempts > 0 ==> AllTransient(plan, uploaded, env, attempts - 1)
    ensures match r
            case Staged(diverged) =>
              attempts > 0 && Judge(plan, uploaded, env(attempts - 1).served) == Match(diverged)
            case Drifted => attempts > 0 && Judge(plan, uploaded, env(attempts - 1).served) == Drift
            case DeadlinePassed(kind) =>
              && attempts > 0 && Judge(plan, uploaded, env(attempts - 1).served) == Transient(kind)
              && now >= deadline && OutOfTime(Wait(start, timing, env), attempts)
            case Cancelled => AllTransient(plan, uploaded, env, attempts) && StoppedAt(env, attempts)
            case BadUpload => uploaded == "" && attempts == 0
    ensures attempts <= (timing.timeout + timing.poll - 1) / timing.poll
    ensures deadline >= start + timing.firstDelay + timing.timeout
    ensures forall k: nat ::
              uploaded != "" && IsVerdictAt(plan, uploaded, env, k) && OnTime(Wait(start, timing, env), k) ==>
                attempts == k + 1 && (r.Staged? || r.Drifted?)
  {
    hide Judge, Canonical, Join, Parsed, LinesOf, StartOf, Slept, OnTime, IsVerdictAt;
    ghost var w := Wait(start, timing, env);
    NextStart(w, 0);
    var parsed := ParseTextConfig(uploaded);
    if parsed.Err? {
      FewAttempts(w, 0);
      return BadUpload, 0, start, start + timing.firstDelay + timing.timeout;
    }
    assert parsed.value.raw == uploaded by { ParsedRaw(uploaded); }
    var bytes := CanonicalBytes(parsed.value);
    now := start + timing.firstDelay + env(0).overslept;
    deadline := now + timing.timeout;
    attempts := 0;
    while true
      invariant AllTransient(plan, uploaded, env, attempts)
      invariant deadline == start + timing.firstDelay + env(0).overslept + timing.timeout
      invariant now == StartOf(w, attempts) < deadline
      invariant attempts > 0 ==> !env(attempts - 1).interrupted
      decreases deadline - now + timing.poll
    {
      FewAttempts(w, attempts);
      var attempt := env(attempts);
      if attempt.cancelled {
        NoneMissed(plan, uploaded, w, attempts);
        return Cancelled, attempts, now, deadline;
      }
      NextStart(w, attempts);
      var v := Poll(plan, bytes, attempt.served, uploaded);
      attempts := attempts + 1;
      now := now + attempt.busy;
      match v {
        case Match(diverged) =>
          OneVerdict(plan, uploaded, env, attempts - 1);
          return Staged(diverged), attempts, now, deadline;
        case Drift =>
          OneVerdict(plan, uploaded, env, attempts - 1);
          return Drifted, attempts, now, deadline;
        case Transient(kind) =>
          if now >= deadline {
            NoneMissed(plan, uploaded, w, attempts);
            return DeadlinePassed(kind), attempts, now, deadline;
          }
          if attempt.interrupted {
            NoneMissed(plan, uploaded, w, attempts);
            return Cancelled, attempts, now, deadline;
          }
          var wait := if timing.poll > deadline - now then deadline - now else timing.poll;
          now := now + wait + attempt.overslept;
          if now >= deadline {
            NoneMissed(plan, uploaded, w, attempts);
            return DeadlinePassed(kind), attempts, now, deadline;
          }
      }
    }
  }

  // ---------------------------------------------------------------------
  // The bodies a render gets are lines of a file
  // ---------------------------------------------------------------------

  lemma {:induction false} ContentIn(lines: seq<string>)
    ensures forall line :: line in Content(lines) ==> line in lines
  {
    hide KindOf;
    if lines != [] {
      ContentIn(lines[1..]);
    }
  }

  lemma BodyLinesFree(lines: seq<string>, name: string)
    requires LineFree(lines)
    ensures LineFree(BodyLines(lines, name))
  {
    hide LabelLine, RegionEnd, Content;
    if LabelLine(lines, name).Some? {
      var i := LabelLine(lines, name).value;
      ContentIn(lines[i + 1..RegionEnd(lines, i)]);
      assert forall line :: line in lines[i + 1..RegionEnd(lines, i)] ==> line in lines;
    }
  }

  lemma {:induction false} ForeignFree(body: seq<string>)
    requires LineFree(body)
    ensures LineFree(ForeignLines(body))
  {
    hide IsVlanLine, TrimCR;
    if body != [] {
      ForeignFree(body[..|body| - 1]);
      assert body[|body| - 1] in body;
      TrimCRIsPrefix(body[|body| - 1]);
    }
  }

  lemma {:induction false} PassFree(name: string, body: seq<string>)
    requires LineFree(body)
    ensures LineFree(PassLines(name, body))
  {
    hide IfaceLine, TrimCR;
    if body != [] {
      PassFree(name, body[..|body| - 1]);
      assert body[|body| - 1] in body;
      TrimCRIsPrefix(body[|body| - 1]);
      PassOfLine(name, body[|body| - 1]);
    }
  }

  lemma ConcatFree(a: seq<string>, b: seq<string>)
    requires LineFree(a) && LineFree(b)
    ensures LineFree(a + b)
  {
  }

  lemma VlanBodiesFree(lines: seq<string>, s: VLANState)
    requires FileLines(lines) && Renderable(s) && GoIDs(s)
    ensures AllLineFree(VlanBodies(s, ForeignIn(lines)))
  {
    hide Renderable, GoIDs, GeneratedBody, PVIDLines, BodyLines, ForeignLines, LineFree, AllInert,
         InterfaceLabel, VlansLines;
    assert LineFree(lines);
    var bodies := VlanBodies(s, ForeignIn(lines));
    forall k | 0 <= k < |bodies|
      ensures LineFree(bodies[k])
    {
      var name := ManagedNames()[k];
      assert name in ManagedNames();
      BodyLinesFree(lines, name);
      ForeignFree(BodyLines(lines, name));
      var own := if k == 0 then GeneratedBody(s) else PVIDLines(s, k);
      if k == 0 {
        VlanIDs(s);
        VlansLinesAreInert(s, Sorted(s.vlans.Keys));
        GeneratedIs(s);
      } else {
        PVIDLinesAreInert(s, k);
      }
      BodyLineFree(own);
      ConcatFree(ForeignLines(BodyLines(lines, name)), own);
    }
  }

  lemma PortBodiesFree(lines: seq<string>, pass: map<string, seq<string>>, desired: map<int, PortSettings>)
    requires FileLines(lines) && AllPortsIn(desired)
    requires forall name :: LinesIn(pass, name) == PassOf(BodiesOf(lines), name)
    ensures PortsLineFree(pass, desired)
    ensures PortsReplaced(lines, pass, desired, PORT_COUNT) == PortRendered(lines, desired)
    ensures PortSplicesHold(lines, pass, desired, PORT_COUNT) <==>
            PortSplicesHold(lines, PassIn(lines), desired, PORT_COUNT)
  {
    hide PassOf, LinesIn, InterfaceLabel, BodyLines, PortLines, LineFree, PassLines, AllInert, PortBody, PassIn,
         BodiesOf, PortsReplaced, PortSplicesHold;
    assert LineFree(lines);
    forall port | 1 <= port <= PORT_COUNT
      ensures LineFree(PortBody(pass, desired, port))
      ensures PortBody(pass, desired, port) == PortBody(PassIn(lines), desired, port)
    {
      var name := InterfaceLabel(port);
      PassInIs(lines, port);
      PassOfPort(lines, port);
      BodyLinesFree(lines, name);
      PassFree(name, BodyLines(lines, name));
      PortLinesAreInert(desired[port]);
      BodyLineFree(PortLines(desired[port]));
      ConcatFree(PassLines(name, BodyLines(lines, name)), PortLines(desired[port]));
      PortBodyIs(pass, desired, port);
      PortBodyIs(PassIn(lines), desired, port);
    }
    SamePortBodies(lines, pass, PassIn(lines), desired, PORT_COUNT);
    PortRenderedIs(lines, desired);
  }

  lemma PassOfPort(lines: seq<string>, port: int)
    requires IsPortNumber(port)
    ensures PassOf(BodiesOf(lines), InterfaceLabel(port))
         == PassLines(InterfaceLabel(port), BodyLines(lines, InterfaceLabel(port)))
  {
    hide InterfaceLabel, IfaceBody, BodyLines, BodiesOf, PortOf;
    PortOfLabel(port, PORT_COUNT);
    InterfaceBody(lines, port);
  }

  lemma {:induction false} SamePortBodies(lines: seq<string>, pass: map<string, seq<string>>,
                                          other: map<string, seq<string>>,
                                          desired: map<int, PortSettings>, n: nat)
    requires AllPortsIn(desired) && n <= PORT_COUNT
    requires forall port :: 1 <= port <= PORT_COUNT ==> PortBody(pass, desired, port) == PortBody(other, desired, port)
    ensures PortsReplaced(lines, pass, desired, n) == PortsReplaced(lines, other, desired, n)
    ensures PortSplicesHold(lines, pass, desired, n) <==> PortSplicesHold(lines, other, desired, n)
  {
    hide PortBody, PortsReplaced, Replaced, InterfaceLabel, LabelLine, PortSplicesHold;
    PortSplicesStep(lines, pass, desired, if n > 0 then n else 1);
    PortSplicesStep(lines, other, desired, if n > 0 then n else 1);
    PortsReplacedStep(lines, pass, desired, if n > 0 then n else 1);
    PortsReplacedStep(lines, other, desired, if n > 0 then n else 1);
    if n > 0 {
      SamePortBodies(lines, pass, other, desired, n - 1);
    }
  }

  // ---------------------------------------------------------------------
  // The two applies
  // ---------------------------------------------------------------------

  /** How the switch answers the upload. */
  datatype RestoreReply = Accepted | Rejected | Failed

  /**
   The world an apply runs in; cancelled says that the caller gave up before the fetch,
   headerFits is the firmware's guard on the header annotations.
   */
  datatype World = World(cancelled: bool, fetched: Served, headerFits: bool, restore: RestoreReply, start: nat,
                         timing: Timing, env: nat -> Attempt)
  {
    /** The apply gets hold of a file to work on. */
    predicate Reads() {
      !cancelled && fetched.File? && fetched.raw != ""
    }
  }

  datatype ApplyResult =
    | Refused              // the guard in front of the render
    | Stopped              // the caller gave up before the fetch
    | NoFile(kind: FailureClass)
    | NotRendered(error: EditError)
    | HeaderMismatch
    | NotRestored
    | AlreadyStaged
    | Waited(result: WaitResult)

  /** The fetched file decodes to the state already. */
  ghost predicate HoldsState(fetched: Served, s: VLANState) {
    fetched.File? && Clean(fetched.raw) && EqualStates(DecodedState(BodiesOf(LinesOf(fetched.raw))), s)
  }

  ghost predicate HoldsPorts(fetched: Served, desired: map<int, PortSettings>) {
    fetched.File? && Clean(fetched.raw) && DecodedSettings(BodiesOf(LinesOf(fetched.raw))) == desired
  }

  /** A result that comes from the wait loop after this upload. */
  ghost predicate IsWaitFor(result: WaitResult, plan: VerifyPlan, upload: string, env: nat -> Attempt) {
    match result
    case Staged(diverged) =>
      exists k: nat ::
        Judge(plan, upload, env(k).served) == Match(diverged) && AllTransient(plan, upload, env, k)
    case Drifted => exists k: nat :: Judge(plan, upload, env(k).served) == Drift && AllTransient(plan, upload, env, k)
    case DeadlinePassed(kind) =>
      exists k: nat :: Judge(plan, upload, env(k).served) == Transient(kind) && AllTransient(plan, upload, env, k)
    case Cancelled => exists k: nat :: AllTransient(plan, upload, env, k) && StoppedAt(env, k)
    case BadUpload => upload == ""
  }

  /** A file that decodes without error, to this state when one is asked for, and to exactly these settings. */
  ghost predicate ReadsAs(raw: string, s: Option<VLANState>, settings: map<int, PortSettings>) {
    var b := BodiesOf(LinesOf(raw));
    && raw != "" && DecodeIssues(b) == []
    && (s.Some? ==> EqualStates(DecodedState(b), s.value))
    && DecodedSettings(b) == settings
  }

  /** An answer with a file that decodes without error. */
  ghost predicate IsReadable(served: Served) {
    served.File? && served.raw != "" && DecodeIssues(BodiesOf(LinesOf(served.raw))) == []
  }

  /**
   What a result of the wait says about the switch: the first readable answer had all of
   what was asked for when it says staged, and lacked some of it when it says drifted. A
   deadline names what was wrong with the last answer, and none before it was readable.
   */
  ghost predicate Witnessed(result: WaitResult, s: Option<VLANState>, settings: map<int, PortSettings>, upload: string,
                            env: nat -> Attempt)
  {
    match result
    case Staged(diverged) =>
      exists k: nat ::
        && env(k).served.File? && ReadsAs(env(k).served.raw, s, settings)
        && (diverged <==>
              Join(Canonical(LinesOf(env(k).served.raw)), '\n') != Join(Canonical(LinesOf(upload)), '\n'))
        && forall j: nat :: j < k ==> !IsReadable(env(j).served)
    case Drifted =>
      exists k: nat ::
        && IsReadable(env(k).served) && !ReadsAs(env(k).served.raw, s, settings)
        && forall j: nat :: j < k ==> !IsReadable(env(j).served)
    case DeadlinePassed(kind) =>
      exists k: nat ::
        && !IsReadable(env(k).served)
        && (kind == InLogin <==> env(k).served.LoginRefused?) && (kind == InFetch <==> env(k).served.FetchFailed?)
        && forall j: nat :: j < k ==> !IsReadable(env(j).served)
    case Cancelled =>
      exists k: nat :: StoppedAt(env, k) && forall j: nat :: j < k ==> !IsReadable(env(j).served)
    case BadUpload => upload == ""
  }

  lemma TransientIsUnreadable(plan: VerifyPlan, upload: string, env: nat -> Attempt, n: nat)
    requires AllTransient(plan, upload, env, n)
    ensures forall j: nat :: j < n ==> !IsReadable(env(j).served)
  {
    hide LinesOf, BodiesOf, DecodeIssues, DecodedState, DecodedSettings, EqualStates, CanonicalText;
    forall j: nat | j < n
      ensures !IsReadable(env(j).served)
    {
      assert Judge(plan, upload, env(j).served).Transient?;
    }
  }

  /** The verdict on one answer, for a plan that checks the settings, and the state when one is asked for. */
  lemma VerdictMeans(plan: VerifyPlan, s: Option<VLANState>, upload: string, served: Served)
    requires plan.portsCheck && (plan.vlanCheck <==> s.Some?) && (s.Some? ==> plan.vlan == s.value)
    ensures match Judge(plan, upload, served)
            case Transient(kind) =>
              && !IsReadable(served)
              && (kind == InLogin <==> served.LoginRefused?) && (kind == InFetch <==> served.FetchFailed?)
            case Drift => IsReadable(served) && !ReadsAs(served.raw, s, plan.ports)
            case Match(diverged) =>
              && served.File? && ReadsAs(served.raw, s, plan.ports)
              && (diverged <==>
                    Join(Canonical(LinesOf(served.raw)), '\n') != Join(Canonical(LinesOf(upload)), '\n'))
  {
    hide LinesOf, BodiesOf, DecodeIssues, DecodedState, DecodedSettings, EqualStates, Canonical, Join;
  }

  lemma WaitMeans(result: WaitResult, plan: VerifyPlan, s: Option<VLANState>, upload: string, env: nat -> Attempt)
    requires plan.portsCheck && (plan.vlanCheck <==> s.Some?) && (s.Some? ==> plan.vlan == s.value)
    requires IsWaitFor(result, plan, upload, env)
    ensures Witnessed(result, s, plan.ports, upload, env)
  {
    hide Judge, ReadsAs, IsReadable, Canonical, Join, LinesOf, AllTransient;
    match result {
      case Staged(diverged) =>
        var k: nat :| Judge(plan, upload, env(k).served) == Match(diverged) && AllTransient(plan, upload, env, k);
        VerdictMeans(plan, s, upload, env(k).served);
        TransientIsUnreadable(plan, upload, env, k);
      case Drifted =>
        var k: nat :| Judge(plan, upload, env(k).served) == Drift && AllTransient(plan, upload, env, k);
        VerdictMeans(plan, s, upload, env(k).served);
        TransientIsUnreadable(plan, upload, env, k);
      case DeadlinePassed(kind) =>
        var k: nat :| Judge(plan, upload, env(k).served) == Transient(kind) && AllTransient(plan, upload, env, k);
        VerdictMeans(plan, s, upload, env(k).served);
        TransientIsUnreadable(plan, upload, env, k);
      case Cancelled =>
        var k: nat :| AllTransient(plan, upload, env, k) && StoppedAt(env, k);
        TransientIsUnreadable(plan, upload, env, k);
      case BadUpload =>
    }
  }

  /** The switch first serves a readable file at attempt k, and the caller is still there and the time not up. */
  ghost predicate ComesUp(w: World, k: nat) {
    && IsReadable(w.env(k).served) && (forall j: nat :: j < k ==> !IsReadable(w.env(j).served))
    && OnTime(Wait(w.start, w.timing, w.env), k)
  }

  lemma ReadableIsVerdict(plan: VerifyPlan, upload: string, env: nat -> Attempt, k: nat)
    requires IsReadable(env(k).served) && forall j: nat :: j < k ==> !IsReadable(env(j).served)
    ensures IsVerdictAt(plan, upload, env, k)
  {
    hide LinesOf, BodiesOf, DecodeIssues, DecodedState, DecodedSettings, EqualStates, CanonicalText;
    forall j: nat | j < k
      ensures Judge(plan, upload, env(j).served).Transient?
    {
      assert !IsReadable(env(j).served);
    }
  }

  method Restore(plan: VerifyPlan, upload: string, w: World) returns (r: ApplyResult)
    requires w.timing.poll > 0 && w.timing.timeout > 0
    ensures w.restore != Accepted <==> r == NotRestored
    ensures w.restore == Accepted ==> r.Waited? && IsWaitFor(r.result, plan, upload, w.env)
    ensures forall k: nat :: r.Waited? && upload != "" && ComesUp(w, k) ==> r.result.Staged? || r.result.Drifted?
  {
    if w.restore != Accepted {
      return NotRestored;
    }
    hide Judge, AllTransient, OnTime, IsVerdictAt, IsReadable;
    var result, attempts, now, deadline := WaitTransientAndVerify(plan, upload, w.start, w.timing, w.env);
    forall k: nat | upload != "" && ComesUp(w, k)
      ensures result.Staged? || result.Drifted?
    {
      ReadableIsVerdict(plan, upload, w.env, k);
    }
    r := Waited(result);
  }

  lemma HeadedText(lines: seq<string>)
    requires Headed(lines)
    ensures Join(lines, '\n') != ""
  {
    TrimCRIsPrefix(lines[0]);
  }

  /** The plan a VLAN apply verifies: the new state, and the settings as they were. */
  ghost function VlanPlanOf(raw: string, s: VLANState): VerifyPlan {
    VerifyPlan(s, true, DecodedSettings(BodiesOf(LinesOf(raw))), true)
  }

  /** The plan a port apply verifies: the new settings, and the state as it was if it decoded. */
  ghost function PortPlanOf(raw: string, desired: map<int, PortSettings>): VerifyPlan {
    var b := BodiesOf(LinesOf(raw));
    VerifyPlan(DecodedState(b), DecodeIssues(b) == [], desired, true)
  }

  /** The VLAN state a port apply must leave alone; a file with grammar errors has none. */
  ghost function StateToKeep(raw: string): Option<VLANState> {
    if DecodeIssues(BodiesOf(LinesOf(raw))) == [] then Some(DecodedState(BodiesOf(LinesOf(raw)))) else None
  }

  lemma VlanWaitMeans(result: WaitResult, raw: string, s: VLANState, upload: string, env: nat -> Attempt)
    requires IsWaitFor(result, VlanPlanOf(raw, s), upload, env)
    ensures Witnessed(result, Some(s), DecodedSettings(BodiesOf(LinesOf(raw))), upload, env)
  {
    hide IsWaitFor, Witnessed, LinesOf, BodiesOf, DecodedSettings;
    WaitMeans(result, VlanPlanOf(raw, s), Some(s), upload, env);
  }

  lemma PortWaitMeans(result: WaitResult, raw: string, desired: map<int, PortSettings>, upload: string,
                      env: nat -> Attempt)
    requires IsWaitFor(result, PortPlanOf(raw, desired), upload, env)
    ensures Witnessed(result, StateToKeep(raw), desired, upload, env)
  {
    hide IsWaitFor, Witnessed, LinesOf, BodiesOf, DecodedState, DecodeIssues;
    WaitMeans(result, PortPlanOf(raw, desired), StateToKeep(raw), upload, env);
  }

  /** The text the VLAN render makes of a fetched file, when it makes one. */
  ghost predicate IsVlanUpload(upload: string, raw: string, s: VLANState) {
    && VlanRendered(LinesOf(raw), s).Some?
    && Headed(VlanRendered(LinesOf(raw), s).value)
    && upload == Join(VlanRendered(LinesOf(raw), s).value, '\n')
  }

  /** No splice of the VLAN render finds its section gone, and the file has its header. */
  ghost predicate VlanRenders(raw: string, s: VLANState) {
    VlanRendered(LinesOf(raw), s).Some? && Headed(LinesOf(raw))
  }

  ghost predicate PortRenders(raw: string, desired: map<int, PortSettings>)
    requires AllPortsIn(desired)
  {
    PortSplicesHold(LinesOf(raw), PassIn(LinesOf(raw)), desired, PORT_COUNT) && Headed(LinesOf(raw))
  }

  /** A well-formed file with the header is always rendered, and keeps its first line. */
  lemma WellFormedRenders(raw: string, s: VLANState)
    requires WellFormed(LinesOf(raw)) && Headed(LinesOf(raw)) && Renderable(s) && GoIDs(s)
    ensures VlanRenders(raw, s)
    ensures var out := VlanRendered(LinesOf(raw), s).value; out != [] && out[0] == LinesOf(raw)[0] && Headed(out)
  {
    hide WellFormed, Headed, Renderable, GoIDs, VlanBodies, ForeignIn, ReplacedAll, LinesOf, ManagedNames, BodiesOf,
      VlanAfter, Region;
    VlanRenderedBodies(LinesOf(raw), s);
    LinesNotEmpty(raw);
    SplicesKeepHeader(LinesOf(raw), ManagedNames(), VlanBodies(s, ForeignIn(LinesOf(raw))));
  }

  lemma LinesNotEmpty(raw: string)
    ensures LinesOf(raw) != []
  {
  }

  /** So is a tidy one by the port render. */
  lemma TidyRenders(raw: string, desired: map<int, PortSettings>)
    requires Tidy(LinesOf(raw)) && Headed(LinesOf(raw)) && AllPortsIn(desired)
    ensures PortRenders(raw, desired)
    ensures var out := PortRendered(LinesOf(raw), desired); out != [] && out[0] == LinesOf(raw)[0] && Headed(out)
  {
    hide Tidy, Headed, PassIn, PortsReplaced, PortRendered, LinesOf, PortSplicesHold;
    TidySplicesHold(LinesOf(raw), desired, PORT_COUNT);
    PortRenderedIs(LinesOf(raw), desired);
    LinesNotEmpty(raw);
    PortsKeepHeader(LinesOf(raw), PassIn(LinesOf(raw)), desired, PORT_COUNT);
  }

  /**
   Stages a VLAN state. Nothing is uploaded unless the state is renderable and the
   fetched file does not hold it; what is uploaded is the render of the fetched file.
   */
  method ApplyVLANState(desired: VLANState, w: World) returns (r: ApplyResult, upload: Option<string>)
    requires GoIDs(desired) && w.timing.poll > 0 && w.timing.timeout > 0
    ensures r == Refused <==> !Renderable(Normalized(desired))
    ensures r == Stopped <==> Renderable(Normalized(desired)) && w.cancelled
    ensures r.NoFile? <==> Renderable(Normalized(desired)) && !w.cancelled && !w.Reads()
    ensures r == AlreadyStaged <==>
              && Renderable(Normalized(desired)) && w.Reads() && DecodeIssues(BodiesOf(LinesOf(w.fetched.raw))) == []
              && EqualStates(DecodedState(BodiesOf(LinesOf(w.fetched.raw))), Normalized(desired))
    ensures upload.Some? <==> r.NotRestored? || r.Waited?
    ensures upload.Some? ==> w.fetched.File? && IsVlanUpload(upload.value, w.fetched.raw, Normalized(desired))
    ensures r.NotRendered? <==>
              && Renderable(Normalized(desired)) && w.Reads() && !HoldsState(w.fetched, Normalized(desired))
              && !VlanRenders(w.fetched.raw, Normalized(desired))
    ensures r == HeaderMismatch <==>
              && Renderable(Normalized(desired)) && w.Reads() && !HoldsState(w.fetched, Normalized(desired))
              && VlanRenders(w.fetched.raw, Normalized(desired)) && !w.headerFits
    ensures r == NotRestored ==> w.restore != Accepted
    ensures r.Waited? ==>
              && IsWaitFor(r.result, VlanPlanOf(w.fetched.raw, Normalized(desired)), upload.value, w.env)
              && Witnessed(r.result, Some(Normalized(desired)), DecodedSettings(BodiesOf(LinesOf(w.fetched.raw))),
                           upload.value, w.env)
    ensures forall k: nat :: r.Waited? && ComesUp(w, k) ==> r.result.Staged? || r.result.Drifted?
  {
    hide Parsed, LinesOf, BodiesOf, DecodeIssues, DecodedState, DecodedSettings, EqualStates, Join, Renderable,
         ForeignIn, VlanBodies, ReplacedAll, IsWaitFor, Witnessed, AllLineFree, Headed, FileLines,
         ComesUp;
    upload := None;
    var norm := Normalize(desired);
    var err := ValidateRenderable(norm);
    if err.Some? {
      return Refused, None;
    }
    if w.cancelled {
      return Stopped, None;
    }
    if !w.fetched.File? {
      return NoFile(if w.fetched.LoginRefused? then InLogin else InFetch), None;
    }
    var raw := w.fetched.raw;
    var parsed := ParseTextConfig(raw);
    if parsed.Err? {
      return NoFile(InParse), None;
    }
    var tc := parsed.value;
    ParsedRaw(raw);
    var dec := DecodeTextConfig(tc);
    Read(dec, tc);
    if dec.issues == [] {
      var same := Equal(dec.state, norm);
      if same {
        return AlreadyStaged, None;
      }
    }
    var plan := VerifyPlan(norm, true, dec.ports, true);
    var foreign := CaptureForeign(tc);
    var editor := new TextConfigEditor(raw);
    assert FileLines(editor.lines);
    VlanBodiesFree(editor.lines, norm);
    LinesNotEmpty(raw);
    if VlanRendered(LinesOf(raw), norm).Some? {
      SplicesKeepHeader(LinesOf(raw), ManagedNames(), VlanBodies(norm, foreign));
    }
    var rendered := RenderVLANState(editor, norm, foreign);
    if rendered.Err? {
      return NotRendered(rendered.error), None;
    }
    if !w.headerFits {
      return HeaderMismatch, None;
    }
    upload := Some(rendered.value);
    HeadedText(VlanRendered(LinesOf(raw), norm).value);
    r := Restore(plan, rendered.value, w);
    if r.Waited? {
      VlanWaitMeans(r.result, raw, norm, rendered.value, w.env);
    }
  }

  function NormalizedSettings(desired: map<int, PortSettings>): map<int, PortSettings> {
    map port | 1 <= port <= PORT_COUNT :: if port in desired then desired[port] else DEFAULT_SETTINGS
  }

  /** What a port gets that is not mentioned: on, no flow control, low priority, no limits; no other ports. */
  lemma MissingPortIs(desired: map<int, PortSettings>, port: int)
    ensures port in NormalizedSettings(desired) <==> 1 <= port <= 8
    ensures 1 <= port <= 8 ==>
              NormalizedSettings(desired)[port]
              == if port in desired then desired[port] else PortSettings(true, false, "low", "none", "none")
  {
  }

  ghost predicate IsPortUpload(upload: string, raw: string, desired: map<int, PortSettings>)
    requires AllPortsIn(desired)
  {
    Headed(PortRendered(LinesOf(raw), desired)) && upload == Join(PortRendered(LinesOf(raw), desired), '\n')
  }

  /** Stages port settings, by the same steps. */
  method ApplyPortSettings(desired: map<int, PortSettings>, w: World) returns (r: ApplyResult, upload: Option<string>)
    requires w.timing.poll > 0 && w.timing.timeout > 0
    ensures r == Refused <==> !ExactPorts(NormalizedSettings(desired))
    ensures r == Stopped <==> ExactPorts(NormalizedSettings(desired)) && w.cancelled
    ensures r.NoFile? <==> ExactPorts(NormalizedSettings(desired)) && !w.cancelled && !w.Reads()
    ensures r == AlreadyStaged <==>
              && ExactPorts(NormalizedSettings(desired)) && w.Reads()
              && DecodeIssues(BodiesOf(LinesOf(w.fetched.raw))) == []
              && DecodedSettings(BodiesOf(LinesOf(w.fetched.raw))) == NormalizedSettings(desired)
    ensures upload.Some? <==> r.NotRestored? || r.Waited?
    ensures upload.Some? ==> w.fetched.File? && IsPortUpload(upload.value, w.fetched.raw, NormalizedSettings(desired))
    ensures r.NotRendered? <==>
              && ExactPorts(NormalizedSettings(desired)) && w.Reads()
              && !HoldsPorts(w.fetched, NormalizedSettings(desired))
              && !PortRenders(w.fetched.raw, NormalizedSettings(desired))
    ensures r == HeaderMismatch <==>
              && ExactPorts(NormalizedSettings(desired)) && w.Reads()
              && !HoldsPorts(w.fetched, NormalizedSettings(desired))
              && PortRenders(w.fetched.raw, NormalizedSettings(desired)) && !w.headerFits
    ensures r == NotRestored ==> w.restore != Accepted
    ensures r.Waited? ==>
              && IsWaitFor(r.result, PortPlanOf(w.fetched.raw, NormalizedSettings(desired)), upload.value, w.env)
              && Witnessed(r.result, StateToKeep(w.fetched.raw), NormalizedSettings(desired), upload.value, w.env)
    ensures forall k: nat :: r.Waited? && ComesUp(w, k) ==> r.result.Staged? || r.result.Drifted?
  {
    hide Parsed, LinesOf, BodiesOf, DecodeIssues, DecodedState, DecodedSettings, Join, IsWaitFor, Witnessed,
      StateToKeep, Headed, ComesUp, FileLines, PortsReplaced, PortsLineFree, PassOf, LinesIn, PortRendered, Supported;
    upload := None;
    var norm := NormalizePortSettings(desired);
    var err := ValidatePortSettings(norm);
    if err.Some? {
      return Refused, None;
    }
    assert norm == NormalizedSettings(desired) && AllPortsIn(norm);
    hide NormalizedSettings;
    if w.cancelled {
      return Stopped, None;
    }
    if !w.fetched.File? {
      return NoFile(if w.fetched.LoginRefused? then InLogin else InFetch), None;
    }
    var raw := w.fetched.raw;
    var parsed := ParseTextConfig(raw);
    if parsed.Err? {
      return NoFile(InParse), None;
    }
    var tc := parsed.value;
    ParsedRaw(raw);
    var dec := DecodeTextConfig(tc);
    Read(dec, tc);
    if dec.issues == [] {
      var same := EqualPortSettings(dec.ports, norm);
      if same {
        return AlreadyStaged, None;
      }
    }
    var editor := new TextConfigEditor(raw);
    assert FileLines(editor.lines);
    PortBodiesFree(editor.lines, dec.portPass, norm);
    hide PassIn, PortSplicesHold, LineFree;
    var rendered := RenderPortSettings(editor, tc, norm, dec.portPass);
    if rendered.Err? {
      return NotRendered(rendered.error), None;
    }
    if !w.headerFits {
      return HeaderMismatch, None;
    }
    var plan := VerifyPlan(dec.state, dec.issues == [], norm, true);
    upload := Some(rendered.value);
    HeadedText(PortRendered(LinesOf(raw), norm));
    r := Restore(plan, rendered.value, w);
    if r.Waited? {
      PortWaitMeans(r.result, raw, norm, rendered.value, w.env);
    }
  }

  // ---------------------------------------------------------------------
  // A switch that serves what was uploaded
  // ---------------------------------------------------------------------

  lemma LinesOfJoin(lines: seq<string>)
    requires FileLines(lines)
    ensures LinesOf(Join(lines, '\n')) == lines && Join(lines, '\n') != ""
  {
    SplitOfJoin(lines, '\n');
    JoinEmpty(lines);
  }

  /**
   A switch that serves a file with the uploaded bodies, however it spaces them and
   however it groups the declarations, verifies exactly the expressible states. A port tagged in VLAN 1 keeps every poll
   transient, a VLAN 1 without untagged ports is reported as drift.
   */
  lemma ServedVlanUpload(raw: string, s: VLANState, upload: string, served: string)
    requires WellFormed(LinesOf(raw)) && Renderable(s) && GoIDs(s) && IsVlanUpload(upload, raw, s)
    requires served != "" && ServedAs(BodiesOf(LinesOf(upload)), BodiesOf(LinesOf(served)))
    ensures Judge(VlanPlanOf(raw, s), upload, File(served))
         == if !NoTaggedIn1(s) then Transient(InParse)
            else if !Expressible(s) then Drift
            else Match(CanonicalText(served) != CanonicalText(upload))
  {
    hide WellFormed, Renderable, GoIDs, NoTaggedIn1, LinesOf, BodiesOf, DecodeIssues, DecodedState, DecodedSettings,
      EqualStates, Join, VlanRendered, Headed, VlanAfter, Occupied, CanonicalText, Regrouped;
    var lines := LinesOf(raw);
    RenderedStateDecodes(lines, s);
    VlanRenderedBodies(lines, s);
    IssuesAfter(BodiesOf(lines), s);
    WellFormedIsFile(VlanRendered(lines, s).value);
    LinesOfJoin(VlanRendered(lines, s).value);
    ServedDecodes(BodiesOf(LinesOf(upload)), BodiesOf(LinesOf(served)));
  }

  /** A switch that serves all declarations of the upload in one line is such a switch. */
  lemma CombiningSwitch(raw: string, s: VLANState, upload: string, served: string)
    requires WellFormed(LinesOf(raw)) && Renderable(s) && GoIDs(s) && IsVlanUpload(upload, raw, s)
    requires BodiesOf(LinesOf(served))
          == BodiesOf(LinesOf(upload)).(database := ForeignLines(BodiesOf(LinesOf(raw)).database) + CombinedBody(s))
    ensures ServedAs(BodiesOf(LinesOf(upload)), BodiesOf(LinesOf(served)))
  {
    hide WellFormed, Renderable, GoIDs, LinesOf, BodiesOf, Join, VlanRendered, Headed, VlanAfter, ForeignLines,
      GeneratedBody, CombinedBody, Regrouped;
    var lines := LinesOf(raw);
    VlanRenderedBodies(lines, s);
    WellFormedIsFile(VlanRendered(lines, s).value);
    LinesOfJoin(VlanRendered(lines, s).value);
    DatabaseIs(BodiesOf(lines), s);
    CombinedIsRegrouped(s, ForeignLines(BodiesOf(lines).database));
  }

  lemma WellFormedIsFile(lines: seq<string>)
    requires WellFormed(lines)
    ensures FileLines(lines)
  {
    hide FileLines, AllSimple;
  }

  /**
   For a port upload: with grammar errors in the VLAN lines no poll ever decodes, and a
   setting asked of a missing section is reported as drift.
   */
  lemma ServedPortUpload(raw: string, desired: map<int, PortSettings>, upload: string, served: string)
    requires Tidy(LinesOf(raw)) && ExactPorts(desired) && IsPortUpload(upload, raw, desired)
    requires served != "" && ServedAs(BodiesOf(LinesOf(upload)), BodiesOf(LinesOf(served)))
    ensures Judge(PortPlanOf(raw, desired), upload, File(served))
         == if DecodeIssues(BodiesOf(LinesOf(raw))) != [] then Transient(InParse)
            else if exists port :: 1 <= port <= PORT_COUNT && port !in PresentPorts(LinesOf(raw))
                                   && desired[port] != DEFAULT_SETTINGS then Drift
            else Match(CanonicalText(served) != CanonicalText(upload))
  {
    hide Tidy, LinesOf, BodiesOf, DecodeIssues, DecodedState, DecodedSettings, EqualStates, Join, PortRendered, Headed,
      CanonicalText, Supported, PresentPorts, Regrouped;
    var lines := LinesOf(raw);
    RenderedPortsDecode(lines, desired);
    TidyIsFile(PortRendered(lines, desired));
    LinesOfJoin(PortRendered(lines, desired));
    ServedDecodes(BodiesOf(LinesOf(upload)), BodiesOf(LinesOf(served)));
    SameStateIsEqual(DecodedState(BodiesOf(lines)), DecodedState(BodiesOf(lines)));
  }

  /** A port apply over grammar the VLAN codec refuses is never staged while the switch serves what was uploaded. */
  lemma ForeignGrammarIsNeverStaged(raw: string, desired: map<int, PortSettings>, upload: string,
                                    env: nat -> Attempt, r: WaitResult)
    requires Tidy(LinesOf(raw)) && ExactPorts(desired) && IsPortUpload(upload, raw, desired)
    requires DecodeIssues(BodiesOf(LinesOf(raw))) != []
    requires forall k: nat :: env(k).served.File? ==>
               ServedAs(BodiesOf(LinesOf(upload)), BodiesOf(LinesOf(env(k).served.raw)))
    requires IsWaitFor(r, PortPlanOf(raw, desired), upload, env)
    ensures !r.Staged? && !r.Drifted?
  {
    hide Tidy, LinesOf, BodiesOf, DecodeIssues, PortPlanOf, IsPortUpload, Supported, ServedAs;
    forall k: nat
      ensures Judge(PortPlanOf(raw, desired), upload, env(k).served).Transient?
    {
      if env(k).served.File? && env(k).served.raw != "" {
        ServedPortUpload(raw, desired, upload, env(k).served.raw);
      }
    }
  }
}
