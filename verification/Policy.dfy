/**
 The agent's safety guard: the state every `policy` frame updates, what a restart restores of it,
 and the verdict on a tool call.

 Pattern matching is foreign: a `Regex` says which patterns compile and what they match.
 */
module Policy {
  import opened Wrappers

  datatype Target = Powershell | Posix | SelfProtection | PathTarget

  datatype Rule = Rule(id: string, appliesTo: Target, pattern: string, reason: string)

  datatype Mode = Unrestricted | Allowlist | Off

  datatype ShellPolicy = ShellPolicy(mode: Mode, allow: seq<Rule>)

  datatype Frame = Frame(rules: seq<Rule>, shell: Option<ShellPolicy>, collect: Option<map<string, bool>>)

  datatype Regex = Regex(
    compiles: string -> bool,
    matches: (string, string) -> bool,
    trim: string -> string)

  /** Compiled deny rules by the surface they apply to. */
  datatype Grouped = Grouped(powershell: seq<Rule>, posix: seq<Rule>, selfProtection: seq<Rule>, path: seq<Rule>)

  const NO_RULES := Grouped([], [], [], [])

  /** A mode with its anchored allow rules per shell. */
  datatype CompiledShell = CompiledShell(mode: Mode, powershell: seq<Rule>, posix: seq<Rule>)

  const OPEN_SHELL := CompiledShell(Unrestricted, [], [])

  function GroupOf(g: Grouped, t: Target): seq<Rule> {
    match t
    case Powershell => g.powershell
    case Posix => g.posix
    case SelfProtection => g.selfProtection
    case PathTarget => g.path
  }

  function Add(g: Grouped, r: Rule): Grouped {
    match r.appliesTo
    case Powershell => g.(powershell := g.powershell + [r])
    case Posix => g.(posix := g.posix + [r])
    case SelfProtection => g.(selfProtection := g.selfProtection + [r])
    case PathTarget => g.(path := g.path + [r])
  }

  /** The rules that compile, grouped in order. */
  function Compile(re: Regex, rules: seq<Rule>): Grouped {
    if rules == [] then NO_RULES
    else
      var g, r := Compile(re, rules[..|rules| - 1]), rules[|rules| - 1];
      if re.compiles(r.pattern) then Add(g, r) else g
  }

  /** A group holds exactly the compilable rules for its surface. */
  lemma {:induction false} GroupMembers(re: Regex, rules: seq<Rule>, t: Target, r: Rule)
    ensures r in GroupOf(Compile(re, rules), t) <==> r in rules && r.appliesTo == t && re.compiles(r.pattern)
  {
    if rules != [] {
      var init, last := rules[..|rules| - 1], rules[|rules| - 1];
      assert rules == init + [last];
      GroupMembers(re, init, t, r);
    }
  }

  function Anchored(pattern: string): string { "^(?:" + pattern + ")$" }

  function CompileShell(re: Regex, p: ShellPolicy): CompiledShell {
    CompiledShell(p.mode, AllowFor(re, p.allow, Powershell), AllowFor(re, p.allow, Posix))
  }

  /** The allow rules of one shell whose anchored pattern compiles. */
  function AllowFor(re: Regex, allow: seq<Rule>, t: Target): (r: seq<Rule>)
    ensures forall a :: a in r <==> a in allow && a.appliesTo == t && re.compiles(Anchored(a.pattern))
  {
    if allow == [] then []
    else
      var init, last := allow[..|allow| - 1], allow[|allow| - 1];
      assert allow == init + [last];
      AllowFor(re, init, t)
      + (if last.appliesTo == t && re.compiles(Anchored(last.pattern)) then [last] else [])
  }

  /** The persisted shell policy: absent, as written, or cut short by a failed write. */
  datatype Stored = Absent | Readable(policy: ShellPolicy) | Garbled

  datatype Write = Written | Refused | Torn

  datatype State = State(rules: Grouped, shell: CompiledShell, collectWeb: bool, stored: Stored)

  const WEB_ACTIVITY := "web_activity"

  function AfterWrite(stored: Stored, p: ShellPolicy, w: Write): Stored {
    match w
    case Written => Readable(p)
    case Refused => stored
    case Torn => Garbled
  }

  function Load(re: Regex, stored: Stored): CompiledShell {
    if stored.Readable? then CompileShell(re, stored.policy) else OPEN_SHELL
  }

  /** The state of a process that has just started over the persisted file. */
  function Start(re: Regex, stored: Stored): State {
    State(NO_RULES, Load(re, stored), true, stored)
  }

  /** One frame: the rules are replaced; the shell mode and the gate only when the frame carries them. */
  function Apply(re: Regex, s: State, f: Frame, w: Write): State {
    State(
      Compile(re, f.rules),
      if f.shell.Some? then CompileShell(re, f.shell.value) else s.shell,
      if f.collect.Some? && WEB_ACTIVITY in f.collect.value then f.collect.value[WEB_ACTIVITY] else s.collectWeb,
      if f.shell.Some? then AfterWrite(s.stored, f.shell.value, w) else s.stored)
  }

  /** The process-wide state, updated in place by the frames of the session. */
  class Guard {
    const re: Regex
    var rules: Grouped
    var shell: CompiledShell
    var collectWeb: bool
    var stored: Stored

    ghost function Current(): State
      reads this
    {
      State(rules, shell, collectWeb, stored)
    }

    /** A process start: everything is at its default except what the persisted file restores. */
    constructor (re: Regex, stored: Stored)
      ensures this.re == re && Current() == Start(re, stored)
    {
      this.re := re;
      rules, collectWeb := NO_RULES, true;
      this.stored := stored;
      shell := if stored.Readable? then CompileShell(re, stored.policy) else OPEN_SHELL;
    }

    method SetOperatorRules(newRules: seq<Rule>)
      modifies this`rules
      ensures rules == Compile(re, newRules)
    {
      var g := NO_RULES;
      for i := 0 to |newRules|
        invariant g == Compile(re, newRules[..i])
      {
        assert newRules[..i + 1][..i] == newRules[..i];
        if re.compiles(newRules[i].pattern) {
          g := Add(g, newRules[i]);
        }
      }
      assert newRules[..|newRules|] == newRules;
      rules := g;
    }

    method SetShellPolicy(p: ShellPolicy, w: Write)
      modifies this`shell, this`stored
      ensures shell == CompileShell(re, p) && stored == AfterWrite(old(stored), p, w)
    {
      shell := CompileShell(re, p);
      match w {
        case Written => stored := Readable(p);
        case Refused =>
        case Torn => stored := Garbled;
      }
    }

    method SetCollect(collect: map<string, bool>)
      modifies this`collectWeb
      ensures collectWeb == if WEB_ACTIVITY in collect then collect[WEB_ACTIVITY] else old(collectWeb)
    {
      var rest := collect.Keys;
      while rest != {}
        invariant rest <= collect.Keys
        invariant collectWeb ==
          if WEB_ACTIVITY in collect && WEB_ACTIVITY !in rest then collect[WEB_ACTIVITY] else old(collectWeb)
        decreases rest
      {
        var name :| name in rest;
        if name == WEB_ACTIVITY {
          collectWeb := collect[name];
        }
        rest := rest - {name};
      }
    }

    method ApplyFrame(f: Frame, w: Write)
      modifies this
      ensures Current() == Apply(re, old(Current()), f, w)
    {
      SetOperatorRules(f.rules);
      if f.shell.Some? {
        SetShellPolicy(f.shell.value, w);
      }
      if f.collect.Some? {
        SetCollect(f.collect.value);
      }
    }
  }

  // ---- Frames and restarts ----

  datatype Step = Received(frame: Frame, write: Write) | Restart

  function Run(re: Regex, initial: Stored, steps: seq<Step>): State {
    if steps == [] then Start(re, initial)
    else
      var before := Run(re, initial, steps[..|steps| - 1]);
      match steps[|steps| - 1]
      case Received(f, w) => Apply(re, before, f, w)
      case Restart => Start(re, before.stored)
  }

  predicate Carries(st: Step) { st.Received? && st.frame.shell.Some? }

  ghost predicate LastCarrier(steps: seq<Step>, k: nat) {
    k < |steps| && Carries(steps[k]) && forall m :: k < m < |steps| ==> !Carries(steps[m])
  }

  ghost predicate RestartAfter(steps: seq<Step>, k: int) {
    exists m :: k < m < |steps| && 0 <= m && steps[m].Restart?
  }

  lemma LastCarrierStep(steps: seq<Step>, k: nat)
    requires LastCarrier(steps, k) && k < |steps| - 1
    ensures LastCarrier(steps[..|steps| - 1], k)
    ensures RestartAfter(steps, k) <==> RestartAfter(steps[..|steps| - 1], k) || steps[|steps| - 1].Restart?
  {
  }

  /** Nothing but the last carrying frame decides what is stored; a refused write leaves the file as it was. */
  lemma {:induction false} StoredByLastCarrier(re: Regex, initial: Stored, steps: seq<Step>, k: nat)
    requires LastCarrier(steps, k)
    ensures Run(re, initial, steps).stored
         == AfterWrite(Run(re, initial, steps[..k]).stored, steps[k].frame.shell.value, steps[k].write)
  {
    var n := |steps| - 1;
    if k == n {
      assert steps[..n] == steps[..k];
    } else {
      LastCarrierStep(steps, k);
      StoredByLastCarrier(re, initial, steps[..n], k);
      assert steps[..n][..k] == steps[..k];
    }
  }

  /**
   The shell mode in force is the last one any frame carried. Only a restart after a failed write
   can lose it: then the file decides, as it stood before that write or, cut short, as no file.
   */
  lemma {:induction false} ShellInForce(re: Regex, initial: Stored, steps: seq<Step>, k: nat)
    requires LastCarrier(steps, k)
    ensures
      var p := steps[k].frame.shell.value;
      Run(re, initial, steps).shell ==
        if !RestartAfter(steps, k) then CompileShell(re, p)
        else Load(re, AfterWrite(Run(re, initial, steps[..k]).stored, p, steps[k].write))
  {
    var n := |steps| - 1;
    if k < n {
      var init := steps[..n];
      LastCarrierStep(steps, k);
      ShellInForce(re, initial, init, k);
      StoredByLastCarrier(re, initial, init, k);
      assert init[..k] == steps[..k];
    }
  }

  /**
   What a restart after the last carried mode leaves in force, by how its write went: that mode, what
   the file held before, or, cut short, no restriction.
   */
  lemma {:induction false} RestartedShell(re: Regex, initial: Stored, steps: seq<Step>, k: nat)
    requires LastCarrier(steps, k) && RestartAfter(steps, k)
    ensures steps[k].write == Written ==>
      Run(re, initial, steps).shell == CompileShell(re, steps[k].frame.shell.value)
    ensures steps[k].write == Torn || (steps[k].write == Refused && !Run(re, initial, steps[..k]).stored.Readable?) ==>
      Run(re, initial, steps).shell == CompiledShell(Unrestricted, [], [])
    ensures steps[k].write == Refused && Run(re, initial, steps[..k]).stored.Readable? ==>
      Run(re, initial, steps).shell == CompileShell(re, Run(re, initial, steps[..k]).stored.policy)
  {
    ShellInForce(re, initial, steps, k);
  }

  /** With every write successful, frames and restarts alike leave the last carried mode in force. */
  lemma {:induction false} LastCarriedShellWins(re: Regex, initial: Stored, steps: seq<Step>, k: nat)
    requires LastCarrier(steps, k) && steps[k].write == Written
    ensures Run(re, initial, steps).shell == CompileShell(re, steps[k].frame.shell.value)
  {
    ShellInForce(re, initial, steps, k);
  }

  /** Until some frame carries a mode, the one restored from the file stays. */
  lemma {:induction false} NoCarrierKeepsFile(re: Regex, initial: Stored, steps: seq<Step>)
    requires forall m :: 0 <= m < |steps| ==> !Carries(steps[m])
    ensures Run(re, initial, steps).stored == initial
    ensures Run(re, initial, steps).shell ==
      if initial.Readable? then CompileShell(re, initial.policy) else CompiledShell(Unrestricted, [], [])
  {
    if steps != [] {
      NoCarrierKeepsFile(re, initial, steps[..|steps| - 1]);
    }
  }

  /** The operator rules are those of the last frame since the last start, and none before the first. */
  lemma {:induction false} RulesInForce(re: Regex, initial: Stored, steps: seq<Step>)
    ensures Run(re, initial, steps).rules ==
      if steps != [] && steps[|steps| - 1].Received? then Compile(re, steps[|steps| - 1].frame.rules) else NO_RULES
  {
  }

  /** Step `k` sets the collection gate to `on`, and nothing since touches it. */
  ghost predicate LastGate(steps: seq<Step>, k: nat, on: bool) {
    && k < |steps|
    && SetsGate(steps[k]) && steps[k].frame.collect.value["web_activity"] == on
    && forall m :: k < m < |steps| ==> !SetsGate(steps[m]) && !steps[m].Restart?
  }

  predicate SetsGate(st: Step) {
    st.Received? && st.frame.collect.Some? && "web_activity" in st.frame.collect.value
  }

  /** The collection gate is the last explicit value since the last start, and open without one. */
  lemma {:induction false} GateInForce(re: Regex, initial: Stored, steps: seq<Step>)
    ensures !Run(re, initial, steps).collectWeb <==> exists k :: LastGate(steps, k, false)
  {
    if steps != [] {
      var init, last := steps[..|steps| - 1], steps[|steps| - 1];
      GateInForce(re, initial, init);
      forall k: nat | LastGate(init, k, false) && !SetsGate(last) && !last.Restart?
        ensures LastGate(steps, k, false)
      {
      }
      forall k: nat | LastGate(steps, k, false)
        ensures if k == |steps| - 1 then SetsGate(last)
                else LastGate(init, k, false) && !SetsGate(last) && !last.Restart?
      {
      }
      if SetsGate(last) && !last.frame.collect.value["web_activity"] {
        assert LastGate(steps, |steps| - 1, false);
      }
    }
  }

  // ---- The verdict on a call ----

  /** The tools the guard knows by name, and all others. */
  datatype Tool =
    | PowershellExec | ShellExec
    | WingetInstall | WingetUninstall | WingetUpdate | NetDnsFlush | NetAdapterReset
    | ServiceRestart | FsRead | FsList | FsSearch | AgentUpdate
    | OtherTool(name: string)

  /** A tool call: its string arguments by name, and all its strings joined. */
  datatype Call = Call(tool: Tool, args: map<string, string>, allText: string)

  datatype Verdict = Allowed | Blocked(reason: string)

  function Arg(c: Call, name: string): string {
    if name in c.args then c.args[name] else ""
  }

  function Backslashes(path: string): (r: string)
    ensures |r| == |path|
    ensures forall i :: 0 <= i < |path| ==> r[i] == if path[i] == '/' then '\\' else path[i]
  {
    if path == "" then "" else [if path[0] == '/' then '\\' else path[0]] + Backslashes(path[1..])
  }

  function FirstMatch(re: Regex, rules: seq<Rule>, text: string): Option<Rule> {
    if rules == [] then None
    else if re.matches(rules[0].pattern, text) then Some(rules[0])
    else FirstMatch(re, rules[1..], text)
  }

  lemma {:induction false} FirstMatchIff(re: Regex, rules: seq<Rule>, text: string)
    ensures FirstMatch(re, rules, text).Some? <==> exists r :: r in rules && re.matches(r.pattern, text)
  {
    if rules != [] {
      assert rules == [rules[0]] + rules[1..];
      FirstMatchIff(re, rules[1..], text);
    }
  }

  /** The rule that is named as the reason is the first of its list to match. */
  lemma {:induction false} FirstMatchFirst(re: Regex, rules: seq<Rule>, text: string, k: nat)
    requires k < |rules| && re.matches(rules[k].pattern, text)
    requires forall i :: 0 <= i < k ==> !re.matches(rules[i].pattern, text)
    ensures FirstMatch(re, rules, text) == Some(rules[k])
  {
    if k > 0 {
      FirstMatchFirst(re, rules[1..], text, k - 1);
    }
  }

  /** Built-in rules first, then the operator's. */
  function MatchGroup(re: Regex, builtins: Grouped, operator: Grouped, t: Target, text: string): Verdict {
    var hit := FirstMatch(re, GroupOf(builtins, t), text);
    if hit.Some? then Blocked(hit.value.reason)
    else
      var hit' := FirstMatch(re, GroupOf(operator, t), text);
      if hit'.Some? then Blocked(hit'.value.reason) else Allowed
  }

  function ShellGate(re: Regex, mode: Mode, allow: seq<Rule>, command: string): Verdict {
    match mode
    case Unrestricted => Allowed
    case Off => Blocked("shell execution is off by fleet policy")
    case Allowlist =>
      if exists r :: r in allow && re.matches(Anchored(r.pattern), re.trim(command)) then Allowed
      else Blocked("not permitted by the fleet shell allowlist")
  }

  function Then(first: Verdict, second: Verdict): Verdict {
    if first.Blocked? then first else second
  }

  /** Gates a call before it reaches its handler; `hostAllowed` decides download addresses. */
  function Check(re: Regex, builtins: Grouped, s: State, hostAllowed: string -> bool, c: Call): Verdict {
    match c.tool
    case PowershellExec =>
      var script := Arg(c, "script");
      Then(Deny(re, builtins, s, Powershell, script),
           Then(Deny(re, builtins, s, SelfProtection, script),
                ShellGate(re, s.shell.mode, s.shell.powershell, script)))
    case ShellExec =>
      var command := Arg(c, "command");
      Then(Deny(re, builtins, s, Posix, command),
           Then(Deny(re, builtins, s, SelfProtection, command),
                ShellGate(re, s.shell.mode, s.shell.posix, command)))
    case WingetInstall | WingetUninstall | WingetUpdate | NetDnsFlush | NetAdapterReset =>
      Then(Deny(re, builtins, s, Powershell, c.allText), Deny(re, builtins, s, SelfProtection, c.allText))
    case ServiceRestart => Deny(re, builtins, s, SelfProtection, Arg(c, "name"))
    case FsRead | FsList => Deny(re, builtins, s, PathTarget, Backslashes(Arg(c, "path")))
    case FsSearch => Deny(re, builtins, s, PathTarget, Backslashes(Arg(c, "root")))
    case AgentUpdate =>
      if hostAllowed(Arg(c, "url")) then Allowed else Blocked("agent_update host not allowlisted")
    case OtherTool(_) => Allowed
  }

  function Deny(re: Regex, builtins: Grouped, s: State, t: Target, text: string): Verdict {
    MatchGroup(re, builtins, s.rules, t, text)
  }

  /** The surfaces of a call that the guard screens, with the text screened on each. */
  function Screens(c: Call): seq<(Target, string)> {
    match c.tool
    case PowershellExec => [(Powershell, Arg(c, "script")), (SelfProtection, Arg(c, "script"))]
    case ShellExec => [(Posix, Arg(c, "command")), (SelfProtection, Arg(c, "command"))]
    case WingetInstall | WingetUninstall | WingetUpdate | NetDnsFlush | NetAdapterReset =>
      [(Powershell, c.allText), (SelfProtection, c.allText)]
    case ServiceRestart => [(SelfProtection, Arg(c, "name"))]
    case FsRead | FsList => [(PathTarget, Backslashes(Arg(c, "path")))]
    case FsSearch => [(PathTarget, Backslashes(Arg(c, "root")))]
    case AgentUpdate => []
    case OtherTool(_) => []
  }

  /** The call is screened on the surface `t` with the text `text`. */
  ghost predicate Screened(c: Call, t: Target, text: string) {
    exists i :: 0 <= i < |Screens(c)| && Screens(c)[i] == (t, text)
  }

  /** Some compilable rule for the surface matches the text. */
  ghost predicate Hits(re: Regex, rules: seq<Rule>, t: Target, text: string) {
    exists r :: r in rules && r.appliesTo == t && re.compiles(r.pattern) && re.matches(r.pattern, text)
  }

  ghost predicate Denied(re: Regex, rules: seq<Rule>, c: Call) {
    exists t, text :: Screened(c, t, text) && Hits(re, rules, t, text)
  }

  /** What the fleet's shell mode says of a call: nothing unless it runs a shell. */
  ghost predicate ShellPermits(re: Regex, policy: ShellPolicy, c: Call) {
    && (c.tool.PowershellExec? ==> Permits(re, policy, Powershell, Arg(c, "script")))
    && (c.tool.ShellExec? ==> Permits(re, policy, Posix, Arg(c, "command")))
  }

  /** Anything when unrestricted, nothing when off, and otherwise what an anchored allow rule of the shell matches. */
  ghost predicate Permits(re: Regex, policy: ShellPolicy, t: Target, command: string) {
    || policy.mode == Unrestricted
    || (policy.mode == Allowlist
        && exists a :: a in policy.allow && a.appliesTo == t && re.compiles(Anchored(a.pattern))
                    && re.matches(Anchored(a.pattern), re.trim(command)))
  }

  lemma {:induction false} GateIff(re: Regex, policy: ShellPolicy, t: Target, command: string)
    ensures ShellGate(re, policy.mode, AllowFor(re, policy.allow, t), command) == Allowed
       <==> Permits(re, policy, t, command)
  {
  }

  lemma {:induction false} MatchGroupIff(re: Regex, builtins: seq<Rule>, operator: seq<Rule>, t: Target, text: string)
    ensures MatchGroup(re, Compile(re, builtins), Compile(re, operator), t, text).Blocked? <==>
      Hits(re, builtins, t, text) || Hits(re, operator, t, text)
  {
    FirstMatchIff(re, GroupOf(Compile(re, builtins), t), text);
    FirstMatchIff(re, GroupOf(Compile(re, operator), t), text);
    forall r
      ensures r in GroupOf(Compile(re, builtins), t) <==> r in builtins && r.appliesTo == t && re.compiles(r.pattern)
      ensures r in GroupOf(Compile(re, operator), t) <==> r in operator && r.appliesTo == t && re.compiles(r.pattern)
    {
      GroupMembers(re, builtins, t, r);
      GroupMembers(re, operator, t, r);
    }
  }

  /**
   A call passes exactly when no compilable deny rule, built-in or the operator's, matches a text
   it is screened on, the shell mode permits it, and a download host is allowed.
   */
  lemma {:induction false} CheckIff(re: Regex, builtins: seq<Rule>, operator: seq<Rule>, policy: ShellPolicy,
                 s: State, hostAllowed: string -> bool, c: Call)
    requires s.rules == Compile(re, operator) && s.shell == CompileShell(re, policy)
    ensures Check(re, Compile(re, builtins), s, hostAllowed, c) == Allowed <==>
      && !Denied(re, builtins, c) && !Denied(re, operator, c)
      && ShellPermits(re, policy, c)
      && (c.tool.AgentUpdate? ==> hostAllowed(Arg(c, "url")))
  {
    var script, command := Arg(c, "script"), Arg(c, "command");
    GateIff(re, policy, Powershell, script);
    GateIff(re, policy, Posix, command);
    DenyIff(re, builtins, operator, c);
    CheckShape(re, Compile(re, builtins), s, hostAllowed, c);
  }

  /** Some screened surface of the call is denied. */
  predicate ScreenBlocks(re: Regex, builtins: Grouped, operator: Grouped, c: Call) {
    exists i :: 0 <= i < |Screens(c)| && MatchGroup(re, builtins, operator, Screens(c)[i].0, Screens(c)[i].1).Blocked?
  }

  /** The order of the stages does not matter for whether a call passes. */
  lemma CheckShape(re: Regex, builtins: Grouped, s: State, hostAllowed: string -> bool, c: Call)
    ensures Check(re, builtins, s, hostAllowed, c) == Allowed <==>
      && !ScreenBlocks(re, builtins, s.rules, c)
      && (c.tool.PowershellExec? ==> ShellGate(re, s.shell.mode, s.shell.powershell, Arg(c, "script")) == Allowed)
      && (c.tool.ShellExec? ==> ShellGate(re, s.shell.mode, s.shell.posix, Arg(c, "command")) == Allowed)
      && (c.tool.AgentUpdate? ==> hostAllowed(Arg(c, "url")))
  {
    var screens := Screens(c);
    assert |screens| <= 2;
    assert ScreenBlocks(re, builtins, s.rules, c) <==>
      || (|screens| > 0 && Deny(re, builtins, s, screens[0].0, screens[0].1).Blocked?)
      || (|screens| > 1 && Deny(re, builtins, s, screens[1].0, screens[1].1).Blocked?);
  }

  lemma {:induction false} DenyIff(re: Regex, builtins: seq<Rule>, operator: seq<Rule>, c: Call)
    ensures Denied(re, builtins, c) || Denied(re, operator, c) <==>
      ScreenBlocks(re, Compile(re, builtins), Compile(re, operator), c)
  {
    forall t, text
      ensures MatchGroup(re, Compile(re, builtins), Compile(re, operator), t, text).Blocked? <==>
        Hits(re, builtins, t, text) || Hits(re, operator, t, text)
    {
      MatchGroupIff(re, builtins, operator, t, text);
    }
  }

  /** A built-in rule that matches blocks the call in every state the frames and restarts can reach. */
  lemma {:induction false} BuiltinAlwaysBlocks(re: Regex, builtins: seq<Rule>, initial: Stored, steps: seq<Step>,
                            hostAllowed: string -> bool, c: Call)
    requires Denied(re, builtins, c)
    ensures Check(re, Compile(re, builtins), Run(re, initial, steps), hostAllowed, c).Blocked?
  {
    var s := Run(re, initial, steps);
    var operator := if steps != [] && steps[|steps| - 1].Received? then steps[|steps| - 1].frame.rules else [];
    RulesInForce(re, initial, steps);
    var policy := ShellOf(re, initial, steps);
    CheckIff(re, builtins, operator, policy, s, hostAllowed, c);
  }

  /** Every reachable shell mode is a compiled policy. */
  lemma {:induction false} ShellOf(re: Regex, initial: Stored, steps: seq<Step>) returns (p: ShellPolicy)
    ensures Run(re, initial, steps).shell == CompileShell(re, p)
  {
    var open := ShellPolicy(Unrestricted, []);
    assert CompileShell(re, open) == OPEN_SHELL;
    var stored := if steps == [] then initial else Run(re, initial, steps[..|steps| - 1]).stored;
    if steps == [] || steps[|steps| - 1].Restart? {
      p := if stored.Readable? then stored.policy else open;
    } else if steps[|steps| - 1].frame.shell.Some? {
      p := steps[|steps| - 1].frame.shell.value;
    } else {
      p := ShellOf(re, initial, steps[..|steps| - 1]);
    }
  }

  // ---- The verdict on the arguments of a call ----

  /** The rules as written, rather than grouped, decide what is denied on the two surfaces of a command. */
  lemma {:induction false} DeniedOn(re: Regex, builtins: seq<Rule>, operator: seq<Rule>, t: Target, text: string)
    ensures MatchGroup(re, Compile(re, builtins), Compile(re, operator), t, text) == Allowed <==>
      forall r :: (r in builtins || r in operator) && re.compiles(r.pattern) && r.appliesTo == t ==>
        !re.matches(r.pattern, text)
  {
    MatchGroupIff(re, builtins, operator, t, text);
  }

  /**
   A script or command passes exactly when no compilable rule of its shell or for self-protection
   matches it, built-in or the operator's, and the mode is unrestricted or an allowlist with an entry
   for its shell whose anchored pattern matches it trimmed. Without the argument the text is empty.
   */
  lemma {:induction false} ShellCallIff(re: Regex, builtins: seq<Rule>, operator: seq<Rule>, policy: ShellPolicy,
      s: State, hostAllowed: string -> bool, c: Call)
    requires s.rules == Compile(re, operator) && s.shell == CompileShell(re, policy)
    requires c.tool == PowershellExec || c.tool == ShellExec
    ensures
      var key := if c.tool == PowershellExec then "script" else "command";
      var shell := if c.tool == PowershellExec then Powershell else Posix;
      var text := if key in c.args then c.args[key] else "";
      Check(re, Compile(re, builtins), s, hostAllowed, c) == Allowed <==>
        && (forall r | (r in builtins || r in operator) && re.compiles(r.pattern) ::
              r.appliesTo == shell || r.appliesTo == SelfProtection ==> !re.matches(r.pattern, text))
        && (policy.mode == Unrestricted
            || (policy.mode == Allowlist
                && exists a :: a in policy.allow && a.appliesTo == shell && re.compiles("^(?:" + a.pattern + ")$")
                            && re.matches("^(?:" + a.pattern + ")$", re.trim(text))))
  {
    var key := if c.tool == PowershellExec then "script" else "command";
    var shell := if c.tool == PowershellExec then Powershell else Posix;
    DeniedOn(re, builtins, operator, shell, Arg(c, key));
    DeniedOn(re, builtins, operator, SelfProtection, Arg(c, key));
    GateIff(re, policy, shell, Arg(c, key));
    forall a
      ensures Anchored(a) == "^(?:" + a + ")$"
    {
    }
  }

  /** The mutating tools pass exactly when no such rule for PowerShell or self-protection matches all their text. */
  lemma {:induction false} MutatingCallIff(re: Regex, builtins: seq<Rule>, operator: seq<Rule>,
      s: State, hostAllowed: string -> bool, c: Call)
    requires s.rules == Compile(re, operator)
    requires c.tool == WingetInstall || c.tool == WingetUninstall || c.tool == WingetUpdate
          || c.tool == NetDnsFlush || c.tool == NetAdapterReset
    ensures Check(re, Compile(re, builtins), s, hostAllowed, c) == Allowed <==>
      forall r | (r in builtins || r in operator) && re.compiles(r.pattern) ::
        r.appliesTo == Powershell || r.appliesTo == SelfProtection ==> !re.matches(r.pattern, c.allText)
  {
    DeniedOn(re, builtins, operator, Powershell, c.allText);
    DeniedOn(re, builtins, operator, SelfProtection, c.allText);
  }

  /** Restarting a service is screened for self-protection, by its name. */
  lemma {:induction false} RestartCallIff(re: Regex, builtins: seq<Rule>, operator: seq<Rule>,
      s: State, hostAllowed: string -> bool, c: Call)
    requires s.rules == Compile(re, operator) && c.tool == ServiceRestart
    ensures Check(re, Compile(re, builtins), s, hostAllowed, c) == Allowed <==>
      forall r | (r in builtins || r in operator) && re.compiles(r.pattern) && r.appliesTo == SelfProtection ::
        !re.matches(r.pattern, if "name" in c.args then c.args["name"] else "")
  {
    DeniedOn(re, builtins, operator, SelfProtection, Arg(c, "name"));
  }

  /** Reading and listing are screened by their path and searching by its root, with backslashes for slashes. */
  lemma {:induction false} PathCallIff(re: Regex, builtins: seq<Rule>, operator: seq<Rule>,
      s: State, hostAllowed: string -> bool, c: Call)
    requires s.rules == Compile(re, operator) && (c.tool == FsRead || c.tool == FsList || c.tool == FsSearch)
    ensures
      var key := if c.tool == FsSearch then "root" else "path";
      var path := if key in c.args then c.args[key] else "";
      Check(re, Compile(re, builtins), s, hostAllowed, c) == Allowed <==>
        forall r | (r in builtins || r in operator) && re.compiles(r.pattern) && r.appliesTo == PathTarget ::
          !re.matches(r.pattern, Backslashes(path))
  {
    var key := if c.tool == FsSearch then "root" else "path";
    DeniedOn(re, builtins, operator, PathTarget, Backslashes(Arg(c, key)));
  }

  /** A download is decided by its address alone, and no other tool is screened. */
  lemma UnscreenedCallIff(re: Regex, builtins: Grouped, s: State, hostAllowed: string -> bool, c: Call)
    requires c.tool == AgentUpdate || c.tool.OtherTool?
    ensures Check(re, builtins, s, hostAllowed, c) == Allowed <==>
      c.tool.OtherTool? || hostAllowed(if "url" in c.args then c.args["url"] else "")
  {
  }

  /**
   In every state that frames and restarts can reach, a call is blocked when a compilable built-in
   rule for one of its surfaces matches the text under the surface's key.
   */
  lemma {:induction false} BuiltinBlocksArgs(re: Regex, builtins: seq<Rule>, initial: Stored, steps: seq<Step>,
      hostAllowed: string -> bool, c: Call, r: Rule, key: string)
    requires r in builtins && re.compiles(r.pattern)
    requires
      var text := if key in c.args then c.args[key] else "";
      || (c.tool == PowershellExec && key == "script" && (r.appliesTo == Powershell || r.appliesTo == SelfProtection)
          && re.matches(r.pattern, text))
      || (c.tool == ShellExec && key == "command" && (r.appliesTo == Posix || r.appliesTo == SelfProtection)
          && re.matches(r.pattern, text))
      || (c.tool == ServiceRestart && key == "name" && r.appliesTo == SelfProtection && re.matches(r.pattern, text))
      || ((c.tool == FsRead || c.tool == FsList) && key == "path" && r.appliesTo == PathTarget
          && re.matches(r.pattern, Backslashes(text)))
      || (c.tool == FsSearch && key == "root" && r.appliesTo == PathTarget && re.matches(r.pattern, Backslashes(text)))
      || ((c.tool == WingetInstall || c.tool == WingetUninstall || c.tool == WingetUpdate
           || c.tool == NetDnsFlush || c.tool == NetAdapterReset)
          && (r.appliesTo == Powershell || r.appliesTo == SelfProtection) && re.matches(r.pattern, c.allText))
    ensures Check(re, Compile(re, builtins), Run(re, initial, steps), hostAllowed, c).Blocked?
  {
    var i := if r.appliesTo == SelfProtection && !c.tool.ServiceRestart? then 1 else 0;
    assert Screens(c)[i].0 == r.appliesTo && Screened(c, r.appliesTo, Screens(c)[i].1);
    assert Hits(re, builtins, r.appliesTo, Screens(c)[i].1);
    BuiltinAlwaysBlocks(re, builtins, initial, steps, hostAllowed, c);
  }

  /** Adding operator rules never lets a blocked call through. */
  lemma {:induction false} MoreRulesNeverUnblock(re: Regex, builtins: seq<Rule>, fewer: seq<Rule>,
      more: seq<Rule>, policy: ShellPolicy,
                              s: State, s': State, hostAllowed: string -> bool, c: Call)
    requires forall r :: r in fewer ==> r in more
    requires s.rules == Compile(re, fewer) && s'.rules == Compile(re, more)
    requires s.shell == s'.shell == CompileShell(re, policy)
    requires Check(re, Compile(re, builtins), s, hostAllowed, c).Blocked?
    ensures Check(re, Compile(re, builtins), s', hostAllowed, c).Blocked?
  {
    CheckIff(re, builtins, fewer, policy, s, hostAllowed, c);
    CheckIff(re, builtins, more, policy, s', hostAllowed, c);
  }
}
