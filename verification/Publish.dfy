/**
 Publication of the dashboard by any number of writers, detached renderers and explicit renders. The
 processes meet at two locks, a page and a receipt, and read the version of four files one file at a
 time. Two things hold in every reachable state: the receipt never promises more than the page shows,
 and while the page is out of date somebody is still about to notice, unless a process died since the
 last write began.
 */
module Publish {
  import opened Wrappers

  // The version of each file the page is built from; a write moves it to one never used before.
  type Version = seq<nat>

  const FILES := 4

  // How a writer has the page refreshed: through the background renderer, or by rendering itself,
  // skipping the work if the page is current or not.
  datatype Mode = Background | IfStale | Always

  // `Command` is a render nobody's write asked for.
  datatype GenRole = Renderer | Sync(skip: bool) | Command

  datatype CheckRole = ByWriter | ByRenderer | UnderLock

  // Where `dashboard_is_current` is: the page exists, then the receipt is read, then the files.
  datatype CheckPc = AtPage | AtReceipt | AtFiles(receipt: Option<Version>, seen: Version)

  // Where `generate_dashboard` is: the version is read before the data, and published after the page.
  datatype GenPc = Waiting | Reading(version: Version) | Building(version: Version, data: Version) | Publishing(version: Version)

  datatype Proc =
    | Writing(mode: Mode)
    | Check(checker: CheckRole, at: CheckPc)
    | Probe
    | Holding
    | Spawn
    | TryLock
    | Gen(role: GenRole, pc: GenPc)
    | Release

  datatype System = System(
    files: Version,
    receipt: Option<Version>,
    page: Option<Version>,
    renderLock: Option<nat>,
    dashboardLock: Option<nat>,
    procs: map<nat, Proc>,
    next: nat,
    unattended: bool)

  const INITIAL := System([0, 0, 0, 0], None, None, None, None, map[], 0, true)

  /******* Steps *******/

  function Go(s: System, p: nat, proc: Proc): System {
    s.(procs := s.procs[p := proc])
  }

  function Exit(s: System, p: nat): System {
    s.(procs := s.procs - {p})
  }

  function Born(s: System, proc: Proc): System {
    s.(procs := s.procs[s.next := proc], next := s.next + 1)
  }

  // What a finished `dashboard_is_current` makes its caller do.
  function Conclude(s: System, p: nat, role: CheckRole, current: bool): System {
    match role
    case ByWriter => if current then Exit(s, p) else Go(s, p, Probe)
    case ByRenderer => if current then Exit(s, p) else Go(s, p, TryLock)
    case UnderLock => if current then Go(s, p, Release) else Go(s, p, Gen(Renderer, Waiting))
  }

  function CheckStep(s: System, p: nat, role: CheckRole, at: CheckPc): System
    requires |s.files| == FILES
  {
    match at
    case AtPage => if s.page.None? then Conclude(s, p, role, false) else Go(s, p, Check(role, AtReceipt))
    case AtReceipt => Go(s, p, Check(role, AtFiles(s.receipt, [])))
    case AtFiles(receipt, seen) =>
      if |seen| < FILES then Go(s, p, Check(role, AtFiles(receipt, seen + [s.files[|seen|]])))
      else Conclude(s, p, role, receipt == Some(seen))
  }

  function Generated(s: System, p: nat, role: GenRole): System {
    var s := s.(dashboardLock := None);
    if role == Renderer then Go(s, p, Release) else Exit(s, p)
  }

  predicate Skips(role: GenRole) {
    role == Renderer || (role.Sync? && role.skip)
  }

  function GenStep(s: System, p: nat, role: GenRole, pc: GenPc): System
    requires |s.files| == FILES
  {
    match pc
    case Waiting =>
      if s.dashboardLock.Some? then s else Go(s.(dashboardLock := Some(p)), p, Gen(role, Reading([])))
    case Reading(version) =>
      if |version| < FILES then Go(s, p, Gen(role, Reading(version + [s.files[|version|]])))
      else if Skips(role) && s.page.Some? && s.receipt == Some(version) then Generated(s, p, role)
      else Go(s, p, Gen(role, Building(version, [])))
    case Building(version, data) =>
      if |data| < FILES then Go(s, p, Gen(role, Building(version, data + [s.files[|data|]])))
      else Go(s.(page := Some(data)), p, Gen(role, Publishing(version)))
    case Publishing(version) => Generated(s.(receipt := Some(version)), p, role)
  }

  // The next step of one process; one that waits for a lock stays where it is.
  function Advance(s: System, p: nat): System
    requires p in s.procs && |s.files| == FILES
  {
    match s.procs[p]
    case Writing(mode) => Go(s, p, if mode == Background then Check(ByWriter, AtPage) else Gen(Sync(mode == IfStale), Waiting))
    case Check(role, at) => CheckStep(s, p, role, at)
    case Probe => if s.renderLock.Some? then Exit(s, p) else Go(s.(renderLock := Some(p)), p, Holding)
    case Holding => Go(s.(renderLock := None), p, Spawn)
    case Spawn => Exit(Born(s, Check(ByRenderer, AtPage)), p)
    case TryLock => if s.renderLock.Some? then Exit(s, p) else Go(s.(renderLock := Some(p)), p, Check(UnderLock, AtPage))
    case Gen(role, pc) => GenStep(s, p, role, pc)
    case Release => Go(s.(renderLock := None), p, Check(ByRenderer, AtPage))
  }

  // A killed or raising process lets go of its locks and leaves its job undone.
  function Die(s: System, p: nat): System {
    Exit(s, p).(renderLock := if s.renderLock == Some(p) then None else s.renderLock,
                dashboardLock := if s.dashboardLock == Some(p) then None else s.dashboardLock,
                unattended := true)
  }

  datatype Step =
    | Write(mode: Mode)
    | Touch(writer: nat, file: nat, version: nat)
    | Render
    | Run(proc: nat)
    | Kill(proc: nat)

  ghost predicate Next(s: System, s': System, step: Step) {
    |s.files| == FILES &&
    match step
    case Write(mode) => s' == Born(s, Writing(mode)).(unattended := false)
    case Touch(p, f, v) =>
      p in s.procs && s.procs[p].Writing? && f < FILES && s.files[f] < v && s' == s.(files := s.files[f := v])
    case Render => s' == Born(s, Gen(Command, Waiting))
    case Run(p) => p in s.procs && s' == Advance(s, p)
    case Kill(p) => p in s.procs && s' == Die(s, p)
  }

  ghost predicate History(ss: seq<System>, steps: seq<Step>) {
    && |ss| == |steps| + 1 && ss[0] == INITIAL
    && forall i {:trigger steps[i]} :: 0 <= i < |steps| ==> Next(ss[i], ss[i + 1], steps[i])
  }

  /******* What every step keeps *******/

  predicate Below(a: Version, b: Version) {
    |a| <= |b| && forall i :: 0 <= i < |a| ==> a[i] <= b[i]
  }

  // What has been published is not ahead of what a render has read so far.
  predicate NotAhead(published: Option<Version>, read: Version) {
    published.Some? ==> |read| <= |published.value| && forall i :: 0 <= i < |read| ==> published.value[i] <= read[i]
  }

  predicate PublishedOk(s: System) {
    && |s.files| == FILES
    && (s.page.Some? ==> |s.page.value| == FILES && Below(s.page.value, s.files))
    && (s.receipt.Some? ==> s.page.Some? && |s.receipt.value| == FILES && Below(s.receipt.value, s.page.value))
  }

  predicate HoldsRender(proc: Proc) {
    proc.Holding? || proc.Release? || (proc.Check? && proc.checker == UnderLock) || (proc.Gen? && proc.role == Renderer)
  }

  predicate HoldsDashboard(proc: Proc) {
    proc.Gen? && proc.pc != Waiting
  }

  predicate GenOk(s: System, pc: GenPc) {
    match pc
    case Waiting => true
    case Reading(v) => Below(v, s.files) && NotAhead(s.page, v)
    case Building(v, d) =>
      && |v| == FILES && Below(v, s.files) && NotAhead(s.page, v) && |d| <= FILES && Below(d, s.files)
      && forall i :: 0 <= i < |d| ==> v[i] <= d[i]
    case Publishing(v) => |v| == FILES && NotAhead(s.receipt, v) && s.page.Some? && Below(v, s.page.value)
  }

  predicate CheckOk(s: System, at: CheckPc) {
    at.AtFiles? ==> |at.seen| <= FILES && (at.receipt.Some? ==> |at.receipt.value| == FILES && Below(at.receipt.value, s.files))
  }

  predicate ProcOk(s: System, p: nat, proc: Proc) {
    && p < s.next
    && (HoldsRender(proc) ==> s.renderLock == Some(p))
    && (HoldsDashboard(proc) ==> s.dashboardLock == Some(p))
    && (proc.Gen? ==> GenOk(s, proc.pc))
    && (proc.Check? ==> CheckOk(s, proc.at))
  }

  predicate LocksOk(s: System) {
    && (s.renderLock.Some? ==> s.renderLock.value in s.procs && HoldsRender(s.procs[s.renderLock.value]))
    && (s.dashboardLock.Some? ==> s.dashboardLock.value in s.procs && HoldsDashboard(s.procs[s.dashboardLock.value]))
  }

  predicate Stale(s: System) {
    s.receipt != Some(s.files)
  }

  // A check that is bound to find the page out of date: a difference it has seen, or has yet to see.
  predicate Alert(files: Version, at: CheckPc)
    requires |files| == FILES
  {
    at.AtFiles? && at.receipt.Some? && |at.receipt.value| == FILES && |at.seen| <= FILES ==>
      exists i :: 0 <= i < FILES && (if i < |at.seen| then at.seen[i] else files[i]) != at.receipt.value[i]
  }

  // This process will see to it that the page gets current, or that somebody else does.
  predicate Responsible(files: Version, proc: Proc)
    requires |files| == FILES
  {
    match proc
    case Check(role, at) => role == UnderLock || Alert(files, at)
    case Gen(role, pc) =>
      role == Renderer ||
      (role.Sync? &&
       match pc
       case Waiting => true
       case Reading(v) => v <= files
       case Building(v, _) => v == files
       case Publishing(v) => v == files)
    case _ => true
  }

  predicate Attended(s: System)
    requires |s.files| == FILES
  {
    exists p :: p in s.procs && Responsible(s.files, s.procs[p])
  }

  ghost predicate Inv(s: System) {
    && PublishedOk(s) && LocksOk(s)
    && (forall p :: p in s.procs ==> ProcOk(s, p, s.procs[p]))
    && (Stale(s) && !s.unattended ==> Attended(s))
  }

  lemma InitialInv()
    ensures Inv(INITIAL)
  {
  }

  /******* One process moves *******/

  // Only process `p` moved, and it touched locks, page and receipt only as their holder may.
  ghost predicate Moved(s: System, s': System, p: nat) {
    && p in s.procs && s'.files == s.files && s'.next == s.next && s'.unattended == s.unattended
    && (s'.procs - {p}) == (s.procs - {p})
    && (s'.renderLock == s.renderLock || s.renderLock == Some(p) || s.renderLock.None?)
    && (s'.dashboardLock == s.dashboardLock || s.dashboardLock == Some(p) || s.dashboardLock.None?)
    && ((s'.page == s.page && s'.receipt == s.receipt) || s.dashboardLock == Some(p))
  }

  lemma OthersOk(s: System, s': System, p: nat, q: nat)
    requires Inv(s) && Moved(s, s', p) && q in s'.procs && q != p
    ensures q in s.procs && s'.procs[q] == s.procs[q] && ProcOk(s', q, s'.procs[q])
  {
    assert q in (s'.procs - {p}) && (s'.procs - {p})[q] == s'.procs[q];
    assert q in (s.procs - {p}) && (s.procs - {p})[q] == s.procs[q];
    assert ProcOk(s, q, s.procs[q]);
  }

  lemma MoveKeepsInv(s: System, s': System, p: nat)
    requires Inv(s) && Moved(s, s', p)
    requires PublishedOk(s') && LocksOk(s') && (p in s'.procs ==> ProcOk(s', p, s'.procs[p]))
    requires Stale(s') ==> Stale(s)
    requires Stale(s') && Responsible(s.files, s.procs[p]) ==> Attended(s')
    ensures Inv(s')
  {
    assert |s.files| == FILES;
    hide PublishedOk, LocksOk, ProcOk, Responsible;
    forall q | q in s'.procs ensures ProcOk(s', q, s'.procs[q]) {
      if q != p {
        OthersOk(s, s', p, q);
      }
    }
    if Stale(s') && !s'.unattended {
      var q :| q in s.procs && Responsible(s.files, s.procs[q]);
      if q != p {
        assert q in (s.procs - {p}) && (s.procs - {p})[q] == s.procs[q];
        assert q in (s'.procs - {p}) && (s'.procs - {p})[q] == s'.procs[q];
        assert Responsible(s'.files, s'.procs[q]);
      }
    }
  }

  // A lock that `p` neither took nor dropped is still held by the same process.
  lemma LocksKept(s: System, s': System, p: nat)
    requires Inv(s) && Moved(s, s', p)
    requires s'.renderLock.Some? && s'.renderLock != Some(p) ==> s'.renderLock == s.renderLock
    requires s'.dashboardLock.Some? && s'.dashboardLock != Some(p) ==> s'.dashboardLock == s.dashboardLock
    requires s'.renderLock == Some(p) ==> p in s'.procs && HoldsRender(s'.procs[p])
    requires s'.dashboardLock == Some(p) ==> p in s'.procs && HoldsDashboard(s'.procs[p])
    ensures LocksOk(s')
  {
    if s'.renderLock.Some? && s'.renderLock != Some(p) {
      var q := s'.renderLock.value;
      assert q in (s.procs - {p}) && (s.procs - {p})[q] == s.procs[q];
      assert q in (s'.procs - {p}) && (s'.procs - {p})[q] == s'.procs[q];
    }
    if s'.dashboardLock.Some? && s'.dashboardLock != Some(p) {
      var q := s'.dashboardLock.value;
      assert q in (s.procs - {p}) && (s.procs - {p})[q] == s.procs[q];
      assert q in (s'.procs - {p}) && (s'.procs - {p})[q] == s'.procs[q];
    }
  }

  // A version whose every file is as it is now is the current one.
  lemma SameVersion(a: Version, b: Version)
    requires |a| == |b| == FILES && Below(a, b) && Below(b, a)
    ensures a == b
  {
    assert forall i :: 0 <= i < FILES ==> a[i] == b[i];
  }

  // What the checker has read decides the check: alert means out of date.
  lemma AlertConcludes(files: Version, receipt: Option<Version>, seen: Version)
    requires |files| == FILES && |seen| == FILES && Alert(files, AtFiles(receipt, seen))
    ensures receipt != Some(seen)
  {
  }

  // A check that goes on to its next read.
  lemma ReadOnKeepsInv(s: System, p: nat, at': CheckPc)
    requires Inv(s) && p in s.procs && s.procs[p].Check?
    requires Reads(s, s.procs[p].at, at')
    ensures Inv(Go(s, p, Check(s.procs[p].checker, at')))
  {
    hide Alert;
    var (role, at, s') := (s.procs[p].checker, s.procs[p].at, Go(s, p, Check(s.procs[p].checker, at')));
    assert ProcOk(s, p, s.procs[p]);
    LocksKept(s, s', p);
    if role != UnderLock && Responsible(s.files, s.procs[p]) && Stale(s) {
      StillAlert(s, at, at');
    }
    assert Responsible(s.files, s.procs[p]) && Stale(s) ==> Responsible(s'.files, s'.procs[p]);
    assert CheckOk(s', at') by {
      assert CheckOk(s, at);
    }
    MoveKeepsInv(s, s', p);
  }

  lemma ConcludeKeepsInv(s: System, p: nat, current: bool)
    requires Inv(s) && p in s.procs && s.procs[p].Check?
    requires current && s.procs[p].checker != UnderLock && Stale(s) ==> !Responsible(s.files, s.procs[p])
    ensures Inv(Conclude(s, p, s.procs[p].checker, current))
  {
    hide Alert;
    var (role, s') := (s.procs[p].checker, Conclude(s, p, s.procs[p].checker, current));
    assert ProcOk(s, p, s.procs[p]);
    LocksKept(s, s', p);
    assert p in s'.procs ==> Responsible(s'.files, s'.procs[p]);
    MoveKeepsInv(s, s', p);
  }

  lemma CheckKeepsInv(s: System, p: nat)
    requires Inv(s) && p in s.procs && s.procs[p].Check?
    ensures Inv(Advance(s, p))
  {
    var (role, at) := (s.procs[p].checker, s.procs[p].at);
    assert ProcOk(s, p, s.procs[p]) && CheckOk(s, at);
    hide Inv, ProcOk, Alert;
    match at
    case AtPage =>
      if s.page.None? { ConcludeKeepsInv(s, p, false); } else { ReadOnKeepsInv(s, p, AtReceipt); }
    case AtReceipt => ReadOnKeepsInv(s, p, AtFiles(s.receipt, []));
    case AtFiles(receipt, seen) =>
      if |seen| < FILES {
        ReadOnKeepsInv(s, p, AtFiles(receipt, seen + [s.files[|seen|]]));
      } else {
        if Alert(s.files, at) { AlertConcludes(s.files, receipt, seen); }
        ConcludeKeepsInv(s, p, receipt == Some(seen));
      }
  }

  // The next thing a check reads, if it does not yet know its answer.
  predicate Reads(s: System, at: CheckPc, at': CheckPc)
    requires |s.files| == FILES
  {
    match at
    case AtPage => at' == AtReceipt
    case AtReceipt => at' == AtFiles(s.receipt, [])
    case AtFiles(r, seen) => |seen| < FILES && at' == AtFiles(r, seen + [s.files[|seen|]])
  }

  // Reading the next thing keeps a check alert, or starts it alert if the page is out of date.
  lemma StillAlert(s: System, at: CheckPc, at': CheckPc)
    requires Inv(s) && CheckOk(s, at) && Alert(s.files, at) && Stale(s)
    requires Reads(s, at, at')
    ensures Alert(s.files, at')
  {
    if at.AtReceipt? && s.receipt.Some? {
      if forall i :: 0 <= i < FILES ==> s.files[i] == s.receipt.value[i] {
        SameVersion(s.files, s.receipt.value);
      }
    }
    if at.AtFiles? && at.receipt.Some? {
      var i :| 0 <= i < FILES && (if i < |at.seen| then at.seen[i] else s.files[i]) != at.receipt.value[i];
      assert (if i < |at'.seen| then at'.seen[i] else s.files[i]) != at'.receipt.value[i];
    }
  }

  /******* Rendering *******/

  lemma ReadsOn(s: System, s': System, pc: GenPc, pc': GenPc)
    requires PublishedOk(s) && GenOk(s, pc) && s'.files == s.files && s'.page == s.page
    requires match pc
             case Waiting => pc' == Waiting || pc' == Reading([])
             case Reading(v) => |v| < FILES && pc' == Reading(v + [s.files[|v|]])
             case Building(v, d) => |d| < FILES && pc' == Building(v, d + [s.files[|d|]])
             case Publishing(_) => false
    ensures GenOk(s', pc')
  {
  }

  lemma GenReadOnKeepsInv(s: System, p: nat)
    requires Inv(s) && p in s.procs && s.procs[p].Gen?
    requires match s.procs[p].pc
             case Waiting => true
             case Reading(v) => |v| < FILES
             case Building(v, d) => |d| < FILES
             case Publishing(_) => false
    ensures Inv(Advance(s, p))
  {
    var (pc, s') := (s.procs[p].pc, Advance(s, p));
    assert ProcOk(s, p, s.procs[p]) && GenOk(s, pc);
    LocksKept(s, s', p);
    ReadsOn(s, s', pc, s'.procs[p].pc);
    hide GenOk;
    assert Responsible(s.files, s.procs[p]) ==> Responsible(s'.files, s'.procs[p]);
    MoveKeepsInv(s, s', p);
  }

  lemma GenDecidesKeepsInv(s: System, p: nat)
    requires Inv(s) && p in s.procs && s.procs[p].Gen? && s.procs[p].pc.Reading? && |s.procs[p].pc.version| == FILES
    ensures Inv(Advance(s, p))
  {
    var (pc, s') := (s.procs[p].pc, Advance(s, p));
    assert ProcOk(s, p, s.procs[p]) && GenOk(s, pc);
    LocksKept(s, s', p);
    if pc.version <= s.files {
      assert pc.version == s.files;
    }
    assert p in s'.procs && Responsible(s.files, s.procs[p]) ==> Responsible(s'.files, s'.procs[p]);
    MoveKeepsInv(s, s', p);
  }

  lemma GenPublishesPage(s: System, p: nat)
    requires Inv(s) && p in s.procs && s.procs[p].Gen? && s.procs[p].pc.Building? && |s.procs[p].pc.data| == FILES
    ensures Inv(Advance(s, p))
    ensures s.page.Some? ==> Below(s.page.value, Advance(s, p).page.value)
  {
    var (pc, s') := (s.procs[p].pc, Advance(s, p));
    assert ProcOk(s, p, s.procs[p]) && GenOk(s, pc);
    LocksKept(s, s', p);
    assert PublishedOk(s');
    assert GenOk(s', s'.procs[p].pc);
    MoveKeepsInv(s, s', p);
  }

  // A receipt that was current is not replaced by an older one.
  lemma GenPublishesReceipt(s: System, p: nat)
    requires Inv(s) && p in s.procs && s.procs[p].Gen? && s.procs[p].pc.Publishing?
    ensures Inv(Advance(s, p))
    ensures s.receipt.Some? ==> Below(s.receipt.value, Advance(s, p).receipt.value)
  {
    var (v, s') := (s.procs[p].pc.version, Advance(s, p));
    assert ProcOk(s, p, s.procs[p]) && GenOk(s, s.procs[p].pc);
    LocksKept(s, s', p);
    if !Stale(s) {
      assert Below(v, s.files);
      SameVersion(s.files, v);
    }
    MoveKeepsInv(s, s', p);
  }

  /******* Locks, spawning, writes and deaths *******/

  lemma LockKeepsInv(s: System, p: nat)
    requires Inv(s) && p in s.procs
    requires s.procs[p].Writing? || s.procs[p].Holding? || s.procs[p].Release? ||
             ((s.procs[p].Probe? || s.procs[p].TryLock?) && s.renderLock.None?)
    ensures Inv(Advance(s, p))
  {
    var s' := Advance(s, p);
    assert ProcOk(s, p, s.procs[p]);
    LocksKept(s, s', p);
    assert Responsible(s'.files, s'.procs[p]);
    MoveKeepsInv(s, s', p);
  }

  // Whoever holds the render lock looks at the page again after dropping it, or starts someone who does.
  lemma YieldKeepsInv(s: System, p: nat)
    requires Inv(s) && p in s.procs && (s.procs[p].Probe? || s.procs[p].TryLock?) && s.renderLock.Some?
    ensures Inv(Advance(s, p))
  {
    var (s', holder) := (Advance(s, p), s.renderLock.value);
    LocksKept(s, s', p);
    assert holder != p && holder in s'.procs && Responsible(s'.files, s'.procs[holder]);
    MoveKeepsInv(s, s', p);
  }

  // A new process, or one that ends leaving a responsible one behind.
  lemma BirthKeepsInv(s: System, proc: Proc, unattended: bool)
    requires Inv(s) && !HoldsRender(proc) && !HoldsDashboard(proc)
    requires proc.Check? ==> proc.at.AtPage?
    requires unattended == s.unattended || (!unattended && Responsible(s.files, proc))
    ensures Inv(Born(s, proc).(unattended := unattended))
  {
    var s' := Born(s, proc).(unattended := unattended);
    assert |s.files| == FILES;
    hide PublishedOk, HoldsRender, HoldsDashboard, Responsible, GenOk, CheckOk;
    assert forall q :: q in s.procs ==> q < s.next by {
      assert forall q :: q in s.procs ==> ProcOk(s, q, s.procs[q]);
    }
    assert PublishedOk(s') by { BirthKeepsPublished(s, proc, unattended); }
    forall q | q in s'.procs ensures ProcOk(s', q, s'.procs[q]) {
      BirthKeepsProc(s, proc, unattended, q);
    }
    if Stale(s') && !s'.unattended {
      if s.unattended {
        assert s.next in s'.procs;
      } else {
        var q :| q in s.procs && Responsible(s.files, s.procs[q]);
        assert q in s'.procs && s'.procs[q] == s.procs[q];
      }
    }
  }

  lemma BirthKeepsPublished(s: System, proc: Proc, unattended: bool)
    requires PublishedOk(s)
    ensures PublishedOk(Born(s, proc).(unattended := unattended))
  {
  }

  lemma BirthKeepsProc(s: System, proc: Proc, unattended: bool, q: nat)
    requires forall q :: q in s.procs ==> ProcOk(s, q, s.procs[q])
    requires !HoldsRender(proc) && !HoldsDashboard(proc) && (proc.Check? ==> proc.at.AtPage?)
    requires q in Born(s, proc).procs
    ensures ProcOk(Born(s, proc).(unattended := unattended), q, Born(s, proc).procs[q])
  {
    if q != s.next {
      assert ProcOk(s, q, s.procs[q]);
    }
  }

  lemma SpawnKeepsInv(s: System, p: nat)
    requires Inv(s) && p in s.procs && s.procs[p].Spawn?
    ensures Inv(Advance(s, p))
  {
    var (born, s') := (Born(s, Check(ByRenderer, AtPage)), Advance(s, p));
    BirthKeepsInv(s, Check(ByRenderer, AtPage), s.unattended);
    assert ProcOk(s, p, s.procs[p]);
    assert born == born.(unattended := s.unattended) && s' == Exit(born, p);
    LocksKept(born, s', p);
    assert s.next in s'.procs && Responsible(s'.files, s'.procs[s.next]);
    MoveKeepsInv(born, s', p);
  }

  lemma TouchKeepsProc(s: System, s': System, q: nat, f: nat, v: nat)
    requires |s.files| == FILES && f < FILES && s.files[f] < v && s' == s.(files := s.files[f := v])
    requires q in s.procs && ProcOk(s, q, s.procs[q])
    ensures ProcOk(s', q, s'.procs[q])
  {
    assert Below(s.files, s'.files);
  }

  lemma TouchKeepsInv(s: System, s': System, p: nat, f: nat, v: nat)
    requires Inv(s) && Next(s, s', Touch(p, f, v))
    ensures Inv(s')
  {
    assert PublishedOk(s');
    hide PublishedOk, ProcOk;
    forall q | q in s'.procs ensures ProcOk(s', q, s'.procs[q]) {
      TouchKeepsProc(s, s', q, f, v);
    }
    assert Responsible(s'.files, s'.procs[p]);
  }

  lemma DeathKeepsInv(s: System, p: nat)
    requires Inv(s) && p in s.procs
    ensures Inv(Die(s, p))
  {
    var s' := Die(s, p);
    assert PublishedOk(s');
    hide PublishedOk, GenOk, CheckOk;
    forall q | q in s'.procs ensures ProcOk(s', q, s'.procs[q]) {
      DeathKeepsProc(s, p, q);
    }
  }

  lemma DeathKeepsProc(s: System, p: nat, q: nat)
    requires p in s.procs && q in Die(s, p).procs
    requires ProcOk(s, q, s.procs[q])
    ensures ProcOk(Die(s, p), q, s.procs[q])
  {
  }

  lemma RunKeepsInv(s: System, p: nat)
    requires Inv(s) && p in s.procs
    ensures Inv(Advance(s, p))
  {
    hide Inv, Advance;
    match s.procs[p]
    case Check(_, _) => CheckKeepsInv(s, p);
    case Spawn => SpawnKeepsInv(s, p);
    case Gen(_, Reading(v)) => if |v| < FILES { GenReadOnKeepsInv(s, p); } else { GenDecides(s, p); }
    case Gen(_, Building(v, d)) => if |d| < FILES { GenReadOnKeepsInv(s, p); } else { GenPage(s, p); }
    case Gen(_, Publishing(_)) => GenPublishesReceipt(s, p);
    case Gen(_, Waiting) => GenReadOnKeepsInv(s, p);
    case Probe => if s.renderLock.Some? { YieldKeepsInv(s, p); } else { LockKeepsInv(s, p); }
    case TryLock => if s.renderLock.Some? { YieldKeepsInv(s, p); } else { LockKeepsInv(s, p); }
    case _ => LockKeepsInv(s, p);
  }

  lemma GenDecides(s: System, p: nat)
    requires Inv(s) && p in s.procs && s.procs[p].Gen? && s.procs[p].pc.Reading? && |s.procs[p].pc.version| >= FILES
    ensures Inv(Advance(s, p))
  {
    assert ProcOk(s, p, s.procs[p]);
    GenDecidesKeepsInv(s, p);
  }

  lemma GenPage(s: System, p: nat)
    requires Inv(s) && p in s.procs && s.procs[p].Gen? && s.procs[p].pc.Building? && |s.procs[p].pc.data| >= FILES
    ensures Inv(Advance(s, p))
  {
    assert ProcOk(s, p, s.procs[p]);
    GenPublishesPage(s, p);
  }

  lemma StepKeepsInv(s: System, s': System, step: Step)
    requires Inv(s) && Next(s, s', step)
    ensures Inv(s')
  {
    hide Inv, Advance, Die, Born;
    match step
    case Write(mode) => BirthKeepsInv(s, Writing(mode), false);
    case Touch(p, f, v) => TouchKeepsInv(s, s', p, f, v);
    case Render => RenderKeepsInv(s);
    case Run(p) => RunKeepsInv(s, p);
    case Kill(p) => DeathKeepsInv(s, p);
  }

  lemma RenderKeepsInv(s: System)
    requires Inv(s)
    ensures Inv(Born(s, Gen(Command, Waiting)))
  {
    var born := Born(s, Gen(Command, Waiting));
    BirthKeepsInv(s, Gen(Command, Waiting), s.unattended);
    assert born == born.(unattended := s.unattended);
  }

  lemma {:induction false} HistoryKeepsInv(ss: seq<System>, steps: seq<Step>, i: nat)
    requires History(ss, steps) && i < |ss|
    ensures Inv(ss[i])
  {
    hide Inv, Next;
    if i == 0 {
      InitialInv();
    } else {
      HistoryKeepsInv(ss, steps, i - 1);
      assert Next(ss[i - 1], ss[i], steps[i - 1]);
      StepKeepsInv(ss[i - 1], ss[i], steps[i - 1]);
    }
  }

  /******* A process that nobody disturbs *******/

  // What `n` steps of one process alone make of the system.
  function Alone(s: System, p: nat, n: nat): (t: System)
    requires |s.files| == FILES
    ensures t.files == s.files
    decreases n
  {
    if n == 0 || p !in s.procs then s else Alone(Advance(s, p), p, n - 1)
  }

  lemma OneStep(s: System, p: nat, n: nat)
    requires |s.files| == FILES && n > 0 && p in s.procs
    ensures Alone(s, p, n) == Alone(Advance(s, p), p, n - 1)
  {
  }

  lemma {:induction false} CheckReads(s: System, p: nat, role: CheckRole, receipt: Option<Version>, k: nat)
    requires |s.files| == FILES && k <= FILES && p in s.procs && s.procs[p] == Check(role, AtFiles(receipt, s.files[..k]))
    ensures Alone(s, p, FILES - k + 1) == Conclude(s, p, role, receipt == Some(s.files))
    decreases FILES - k
  {
    hide Alone;
    OneStep(s, p, FILES - k + 1);
    if k < FILES {
      var t := Advance(s, p);
      assert s.files[..k] + [s.files[k]] == s.files[..k + 1];
      CheckReads(t, p, role, receipt, k + 1);
      ConcludeForgets(s, p, t.procs[p], role, receipt == Some(s.files));
    } else {
      assert s.files[..k] == s.files;
      NoSteps(Advance(s, p), p);
    }
  }

  lemma NoSteps(s: System, p: nat)
    requires |s.files| == FILES
    ensures Alone(s, p, 0) == s
  {
  }

  lemma GoTwice(s: System, p: nat, a: Proc, b: Proc)
    ensures Go(Go(s, p, a), p, b) == Go(s, p, b) && Exit(Go(s, p, a), p) == Exit(s, p)
  {
    assert s.procs[p := a][p := b] == s.procs[p := b];
    assert s.procs[p := a] - {p} == s.procs - {p};
  }

  // Where a check ends does not depend on where it was.
  lemma ConcludeForgets(s: System, p: nat, proc: Proc, role: CheckRole, current: bool)
    ensures Conclude(Go(s, p, proc), p, role, current) == Conclude(s, p, role, current)
  {
    GoTwice(s, p, proc, Probe);
    GoTwice(s, p, proc, TryLock);
    GoTwice(s, p, proc, Release);
    GoTwice(s, p, proc, Gen(Renderer, Waiting));
  }

  // A check during which nothing else moves finds the page current exactly when it is: then its writer or renderer
  // is done, or lets go of the lock; otherwise it goes on to have the page rendered. Nothing else changes.
  lemma UndisturbedCheck(s: System, p: nat, role: CheckRole)
    requires PublishedOk(s) && p in s.procs && s.procs[p] == Check(role, AtPage)
    ensures Alone(s, p, if s.page.None? then 1 else 3 + FILES) ==
            s.(procs := if s.receipt == Some(s.files) then (if role == UnderLock then s.procs[p := Release] else s.procs - {p})
                        else s.procs[p := match role case ByWriter => Probe case ByRenderer => TryLock case UnderLock => Gen(Renderer, Waiting)])
  {
    hide Alone;
    if s.page.None? {
      OneStep(s, p, 1);
      NoSteps(Advance(s, p), p);
    } else {
      OneStep(s, p, 3 + FILES);
      var t := Advance(s, p);
      OneStep(t, p, 2 + FILES);
      var u := Advance(t, p);
      assert u.procs[p] == Check(role, AtFiles(s.receipt, s.files[..0]));
      CheckReads(u, p, role, s.receipt, 0);
      GoTwice(s, p, t.procs[p], u.procs[p]);
      ConcludeForgets(s, p, u.procs[p], role, s.receipt == Some(s.files));
    }
  }

  lemma {:induction false} GenReads(s: System, p: nat, role: GenRole, k: nat, n: nat)
    requires |s.files| == FILES && k <= FILES && p in s.procs && s.procs[p] == Gen(role, Reading(s.files[..k]))
    ensures Alone(s, p, FILES - k + n) == Alone(Go(s, p, Gen(role, Reading(s.files))), p, n)
    decreases FILES - k
  {
    hide Alone;
    if k < FILES {
      OneStep(s, p, FILES - k + n);
      assert s.files[..k] + [s.files[k]] == s.files[..k + 1];
      GenReads(Advance(s, p), p, role, k + 1, n);
      GoTwice(s, p, Advance(s, p).procs[p], Gen(role, Reading(s.files)));
    } else {
      assert s.files[..k] == s.files && Go(s, p, Gen(role, Reading(s.files))).procs == s.procs;
    }
  }

  lemma {:induction false} GenBuilds(s: System, p: nat, role: GenRole, version: Version, k: nat, n: nat)
    requires |s.files| == FILES && k <= FILES && p in s.procs && s.procs[p] == Gen(role, Building(version, s.files[..k]))
    ensures Alone(s, p, FILES - k + n) == Alone(Go(s, p, Gen(role, Building(version, s.files))), p, n)
    decreases FILES - k
  {
    hide Alone;
    if k < FILES {
      OneStep(s, p, FILES - k + n);
      assert s.files[..k] + [s.files[k]] == s.files[..k + 1];
      GenBuilds(Advance(s, p), p, role, version, k + 1, n);
      GoTwice(s, p, Advance(s, p).procs[p], Gen(role, Building(version, s.files)));
    } else {
      assert s.files[..k] == s.files && Go(s, p, Gen(role, Building(version, s.files))).procs == s.procs;
    }
  }

  // A render that gets the lock and during which nothing else moves leaves page and receipt current and the lock
  // free; without a render at all if it may be skipped and they already were.
  lemma UndisturbedRender(s: System, p: nat, role: GenRole)
    requires PublishedOk(s) && p in s.procs && s.procs[p] == Gen(role, Waiting) && s.dashboardLock.None?
    ensures var t := Alone(s, p, if role != Command && role != Sync(false) && s.receipt == Some(s.files) then 2 + FILES else 4 + 2 * FILES);
            && t.receipt == Some(s.files) && t.page == Some(s.files) && t.dashboardLock == None && t.renderLock == s.renderLock
            && t.procs == if role == Renderer then s.procs[p := Release] else s.procs - {p}
  {
    hide Alone, PublishedOk, Go, Exit, Generated, Advance;
    ReceiptIsPage(s);
    var skips, locked := Skips(role) && s.receipt == Some(s.files), s.(dashboardLock := Some(p));
    LockedAlone(s, p, role, if skips then 1 else 3 + FILES);
    if skips {
      SkipAlone(locked, p, role);
      GeneratedLeaves(locked, p, Gen(role, Reading(s.files)), role);
    } else {
      RenderAlone(locked, p, role);
      GeneratedLeaves(locked.(page := Some(s.files), receipt := Some(s.files)), p, Gen(role, Publishing(s.files)), role);
    }
  }

  lemma LockedAlone(s: System, p: nat, role: GenRole, rest: nat)
    requires |s.files| == FILES && p in s.procs && s.procs[p] == Gen(role, Waiting) && s.dashboardLock.None?
    ensures Alone(s, p, 1 + FILES + rest) == Alone(Go(s.(dashboardLock := Some(p)), p, Gen(role, Reading(s.files))), p, rest)
  {
    hide Alone;
    OneStep(s, p, 1 + FILES + rest);
    var t := Advance(s, p);
    assert t == Go(s.(dashboardLock := Some(p)), p, Gen(role, Reading(s.files[..0])));
    GenReads(t, p, role, 0, rest);
    GoTwice(s.(dashboardLock := Some(p)), p, t.procs[p], Gen(role, Reading(s.files)));
  }

  lemma SkipAlone(s: System, p: nat, role: GenRole)
    requires |s.files| == FILES && Skips(role) && s.page.Some? && s.receipt == Some(s.files)
    ensures var u := Go(s, p, Gen(role, Reading(s.files))); Alone(u, p, 1) == Generated(u, p, role)
  {
    hide Alone;
    var u := Go(s, p, Gen(role, Reading(s.files)));
    OneStep(u, p, 1);
    NoSteps(Advance(u, p), p);
  }

  lemma GeneratedLeaves(s: System, p: nat, proc: Proc, role: GenRole)
    ensures Generated(Go(s, p, proc), p, role) ==
            s.(dashboardLock := None, procs := if role == Renderer then s.procs[p := Release] else s.procs - {p})
  {
    GoTwice(s, p, proc, Release);
  }

  lemma ReceiptIsPage(s: System)
    requires PublishedOk(s)
    ensures |s.files| == FILES && (s.receipt == Some(s.files) ==> s.page == Some(s.files))
  {
    if s.receipt == Some(s.files) {
      SameVersion(s.page.value, s.files);
    }
  }

  // From the decision to render to the receipt.
  lemma RenderAlone(s: System, p: nat, role: GenRole)
    requires |s.files| == FILES && !(Skips(role) && s.page.Some? && s.receipt == Some(s.files))
    ensures Alone(Go(s, p, Gen(role, Reading(s.files))), p, 3 + FILES) ==
            Generated(Go(s.(page := Some(s.files), receipt := Some(s.files)), p, Gen(role, Publishing(s.files))), p, role)
  {
    hide Alone;
    var u := Go(s, p, Gen(role, Reading(s.files)));
    OneStep(u, p, 3 + FILES);
    var v := Go(s, p, Gen(role, Building(s.files, s.files[..0])));
    GoTwice(s, p, u.procs[p], v.procs[p]);
    GenBuilds(v, p, role, s.files, 0, 2);
    GoTwice(s, p, v.procs[p], Gen(role, Building(s.files, s.files)));
    PublishAlone(s, p, role);
  }

  lemma PublishAlone(s: System, p: nat, role: GenRole)
    requires |s.files| == FILES
    ensures Alone(Go(s, p, Gen(role, Building(s.files, s.files))), p, 2) ==
            Generated(Go(s.(page := Some(s.files), receipt := Some(s.files)), p, Gen(role, Publishing(s.files))), p, role)
  {
    hide Alone;
    var w := Go(s, p, Gen(role, Building(s.files, s.files)));
    OneStep(w, p, 2);
    var x := Go(s.(page := Some(s.files)), p, Gen(role, Publishing(s.files)));
    GoTwice(s.(page := Some(s.files)), p, w.procs[p], x.procs[p]);
    OneStep(x, p, 1);
    NoSteps(Advance(x, p), p);
  }

  /******* The theorems *******/

  // A process that some write, or a renderer that some write's refresh, has started.
  predicate OfAWrite(proc: Proc) {
    !(proc.Gen? && proc.role == Command)
  }

  // No lost wakeup: once no writer is refreshing and no renderer is alive, and none of them died since
  // the last write began, the receipt names the files as they are and the page shows exactly them.
  lemma NoLostWakeup(ss: seq<System>, steps: seq<Step>, i: nat)
    requires History(ss, steps) && i < |ss|
    requires !ss[i].unattended && forall p :: p in ss[i].procs ==> !OfAWrite(ss[i].procs[p])
    ensures ss[i].receipt == Some(ss[i].files) && ss[i].page == Some(ss[i].files)
  {
    HistoryKeepsInv(ss, steps, i);
    var s := ss[i];
    assert !Attended(s) by {
      forall p | p in s.procs ensures !Responsible(s.files, s.procs[p]) {
        assert !OfAWrite(s.procs[p]);
      }
    }
    SameVersion(s.page.value, s.files);
  }

  // The one exception is real: a writer that dies after its write leaves nobody to notice.
  lemma DeathLeavesItStale(file: nat, version: nat)
    requires file < FILES && version > 0
    ensures var ss := [INITIAL,
                       Born(INITIAL, Writing(Background)).(unattended := false),
                       Born(INITIAL, Writing(Background)).(unattended := false, files := INITIAL.files[file := version]),
                       Die(Born(INITIAL, Writing(Background)).(unattended := false, files := INITIAL.files[file := version]), 0)];
            && History(ss, [Write(Background), Touch(0, file, version), Kill(0)])
            && ss[3].procs == map[] && Stale(ss[3])
  {
    var s1 := Born(INITIAL, Writing(Background)).(unattended := false);
    var s2 := s1.(files := s1.files[file := version]);
    var (ss, steps) := ([INITIAL, s1, s2, Die(s2, 0)], [Write(Background), Touch(0, file, version), Kill(0)]);
    assert s1.files == INITIAL.files && 0 in s1.procs;
    assert Next(INITIAL, s1, steps[0]) && Next(s1, s2, steps[1]) && Next(s2, Die(s2, 0), steps[2]);
    forall i | 0 <= i < |steps| ensures Next(ss[i], ss[i + 1], steps[i]) {
      assert i == 0 || i == 1 || i == 2;
    }
  }

  // In every reachable state, deaths included, a receipt promises no more than the page shows, and the
  // page shows nothing that is not in the files, though both were read one file at a time.
  lemma ReceiptNeverAhead(ss: seq<System>, steps: seq<Step>, i: nat)
    requires History(ss, steps) && i < |ss|
    ensures ss[i].receipt.Some? ==> ss[i].page.Some? && Below(ss[i].receipt.value, ss[i].page.value)
    ensures ss[i].page.Some? ==> Below(ss[i].page.value, ss[i].files)
  {
    HistoryKeepsInv(ss, steps, i);
  }

  lemma DataRead(s: System, p: nat)
    requires Inv(s) && p in s.procs
    ensures s.procs[p].Gen? && s.procs[p].pc.Building? ==> |s.procs[p].pc.data| <= FILES
  {
    assert ProcOk(s, p, s.procs[p]);
  }

  predicate Forward(a: Option<Version>, b: Option<Version>) {
    a.Some? ==> b.Some? && Below(a.value, b.value)
  }

  // Only these two steps publish anything.
  predicate PublishesPage(s: System, p: nat) {
    p in s.procs && s.procs[p].Gen? && s.procs[p].pc.Building? && |s.procs[p].pc.data| >= FILES
  }

  predicate PublishesReceipt(s: System, p: nat) {
    p in s.procs && s.procs[p].Gen? && s.procs[p].pc.Publishing?
  }

  lemma RunPublishes(s: System, p: nat)
    requires p in s.procs && |s.files| == FILES
    ensures Advance(s, p).page == s.page || (PublishesPage(s, p) && Advance(s, p).page.Some?)
    ensures Advance(s, p).receipt == s.receipt || (PublishesReceipt(s, p) && Advance(s, p).receipt.Some?)
  {
  }

  lemma PublishedBelowItself(s: System)
    requires Inv(s)
    ensures Forward(s.page, s.page) && Forward(s.receipt, s.receipt)
  {
  }

  lemma StepForward(s: System, s': System, step: Step)
    requires Inv(s) && Next(s, s', step)
    ensures Forward(s.page, s'.page) && Forward(s.receipt, s'.receipt)
  {
    hide Inv, Advance, Below;
    PublishedBelowItself(s);
    if step.Run? {
      var p := step.proc;
      DataRead(s, p);
      RunPublishes(s, p);
      if PublishesPage(s, p) {
        GenPublishesPage(s, p);
      } else if PublishesReceipt(s, p) {
        GenPublishesReceipt(s, p);
      }
    }
  }

  // An older snapshot never replaces a newer page or receipt.
  lemma {:induction false} PublicationMovesForward(ss: seq<System>, steps: seq<Step>, i: nat, j: nat)
    requires History(ss, steps) && i <= j < |ss|
    ensures Forward(ss[i].page, ss[j].page) && Forward(ss[i].receipt, ss[j].receipt)
    decreases j
  {
    hide Inv, Next;
    if i < j {
      PublicationMovesForward(ss, steps, i, j - 1);
      HistoryKeepsInv(ss, steps, j - 1);
      assert Next(ss[j - 1], ss[j], steps[j - 1]);
      StepForward(ss[j - 1], ss[j], steps[j - 1]);
    }
  }
}
