/**
 Bindings of fallback sessions to the explicit sessions they turned out to be. Ingests of any sources, killed
 after any row, with checkpoints lost, events rolled back and metrics rewritten in between, only ever bind a
 session that some read showed as a fallback to one that some read showed as explicit, never bind a session
 twice, and never write a binding that a later ingest would refuse to read, unless its session id is blank.
 */
module PromotionBindings {
  import opened Wrappers
  import opened Json
  import opened Usage

  const HUMAIN_TERMINAL: string := "humain-terminal"

  // One log of one runtime.
  datatype Source = Source(runtime: string, path: string)

  datatype Origin = Explicit | Fallback

  // What a record id is a hash of.
  datatype BindingId = BindingId(source: Source, identity: nat, from: Text, to: Text)

  // A durable promotion event.
  datatype Promotion = Promotion(recordId: BindingId, source: Source, identity: nat, from: Text, to: Text)

  datatype Binding = Binding(to: Text, identity: nat)

  datatype CallId = CallId(session: Text, native: Text)

  // A call as the reader found it: the session it names and how it came to name it, its id in the log and
  // whether the log gave it, and its model.
  datatype Call = Call(session: Text, origin: Option<Origin>, native: Text, stable: bool, model: Text)

  // A recorded metric row, as far as provenance goes. `current` says that its writer knew of bindings.
  datatype Metric = Metric(source: Source, session: Text, origin: Option<Origin>, identity: Option<nat>, current: bool,
                           identified: bool, covered: set<CallId>)

  // A call the source has shown, in the group it was counted in.
  datatype Observed = Observed(model: Text, id: CallId)

  type Targets = map<Text, set<Text>>

  datatype Checkpoint = Checkpoint(runtime: string, identity: nat, provenance: Option<map<Text, Origin>>, history: set<Observed>,
                                   live: set<Text>, aliases: Targets)

  /******* Reading the bindings *******/

  function PromotionRecord(source: Source, identity: nat, from: Text, to: Text): Promotion {
    Promotion(BindingId(source, identity, from, to), source, identity, from, to)
  }

  predicate WellFormed(p: Promotion) {
    && !IsBlank(p.from) && !IsBlank(p.to) && p.from != p.to
    && p.recordId == PromotionRecord(p.source, p.identity, p.from, p.to).recordId
  }

  // One row read into the bindings so far: refused if it is malformed, or binds a session differently.
  function Read(bindings: map<Text, Binding>, p: Promotion): Option<map<Text, Binding>> {
    if !WellFormed(p) || (p.from in bindings && bindings[p.from] != Binding(p.to, p.identity)) then None
    else Some(bindings[p.from := Binding(p.to, p.identity)])
  }

  // `source_promotions`, as a fold over the rows of the stream.
  function Bindings(rows: seq<Promotion>, source: Source): Option<map<Text, Binding>> {
    if rows == [] then Some(map[])
    else
      var before, last := Bindings(rows[..|rows| - 1], source), rows[|rows| - 1];
      if before.None? || last.source != source then before else Read(before.value, last)
  }

  method SourcePromotions(rows: seq<Promotion>, source: Source) returns (bindings: Option<map<Text, Binding>>)
    ensures bindings == Bindings(rows, source)
  {
    hide Read;
    bindings := Some(map[]);
    var i := 0;
    while i < |rows|
      invariant 0 <= i <= |rows|
      invariant bindings == Bindings(rows[..i], source)
    {
      assert rows[..i + 1][..i] == rows[..i];
      if bindings.Some? && rows[i].source == source {
        bindings := Read(bindings.value, rows[i]);
      }
      i := i + 1;
    }
    assert rows[..i] == rows;
  }

  // What is bound is what some row says.
  lemma {:induction false} BoundByARow(rows: seq<Promotion>, source: Source, from: Text)
    requires Bindings(rows, source).Some? && from in Bindings(rows, source).value
    ensures var b := Bindings(rows, source).value[from]; PromotionRecord(source, b.identity, from, b.to) in rows
  {
    hide IsBlank;
    var last := rows[|rows| - 1];
    if !(last.source == source && last.from == from) {
      BoundByARow(rows[..|rows| - 1], source, from);
    }
  }

  // Readable bindings are a function: all rows of a source that name a session bind it alike.
  lemma {:induction false} RowsAgree(rows: seq<Promotion>, source: Source, p: Promotion)
    requires Bindings(rows, source).Some? && p in rows && p.source == source
    ensures p.from in Bindings(rows, source).value && Bindings(rows, source).value[p.from] == Binding(p.to, p.identity)
    ensures WellFormed(p)
  {
    hide IsBlank;
    var n := |rows| - 1;
    if rows[n] != p {
      assert p in rows[..n];
      RowsAgree(rows[..n], source, p);
    } else if rows[n].source == source {
      assert Bindings(rows[..n], source).Some?;
    }
  }

  // Every row is one that ingest writes, and no session of a source is bound two ways.
  ghost predicate Agree(rows: seq<Promotion>) {
    && (forall p :: p in rows ==> p == PromotionRecord(p.source, p.identity, p.from, p.to) && p.from != p.to)
    && forall p, q :: p in rows && q in rows && p.source == q.source && p.from == q.from ==> p == q
  }

  predicate NoBlanks(rows: seq<Promotion>, source: Source) {
    forall p :: p in rows && p.source == source ==> !IsBlank(p.from) && !IsBlank(p.to)
  }

  // Such rows are read back, unless one of the source's names a blank session.
  lemma {:induction false} ReadableIff(rows: seq<Promotion>, source: Source)
    requires Agree(rows)
    ensures Bindings(rows, source).Some? <==> NoBlanks(rows, source)
  {
    hide IsBlank;
    if rows != [] {
      var n := |rows| - 1;
      assert rows[n] in rows && forall p :: p in rows <==> p in rows[..n] || p == rows[n];
      ReadableIff(rows[..n], source);
      if Bindings(rows[..n], source).Some? && rows[n].source == source && rows[n].from in Bindings(rows[..n], source).value {
        BoundByARow(rows[..n], source, rows[n].from);
      }
    }
  }

  // Bindings only grow: what was bound stays bound, to the same session.
  lemma BindingsOnlyGrow(rows: seq<Promotion>, later: seq<Promotion>, source: Source, from: Text)
    requires rows <= later && Bindings(rows, source).Some? && Bindings(later, source).Some? && from in Bindings(rows, source).value
    ensures from in Bindings(later, source).value && Bindings(later, source).value[from] == Bindings(rows, source).value[from]
  {
    hide Bindings;
    BoundByARow(rows, source, from);
    var b := Bindings(rows, source).value[from];
    RowsAgree(later, source, PromotionRecord(source, b.identity, from, b.to));
  }

  /******* What an ingest knows when it decides *******/

  datatype Situation = Situation(
    source: Source,
    identity: nat,
    live: set<Text>,
    resumable: bool,
    metrics: seq<Metric>,
    history: set<Observed>,
    bindings: map<Text, Binding>,
    cached: Option<Targets>,
    checkpointIdentity: Option<nat>)
  {
    // `source_states`: what the recorded rows of this source say of a session.
    predicate Recorded(s: Text) {
      exists m :: m in metrics && m.source == source && m.session == s
    }

    function Sources(): set<Text> {
      set m | m in metrics && m.source == source :: m.session
    }

    function Origins(s: Text): set<Option<Origin>> {
      set m | m in metrics && m.source == source && m.session == s :: m.origin
    }

    function Generations(s: Text): set<Option<nat>> {
      set m | m in metrics && m.source == source && m.session == s :: m.identity
    }

    predicate Legacy(s: Text) {
      exists m :: m in metrics && m.source == source && m.session == s && !m.current
    }

    predicate Unidentified(s: Text) {
      exists m :: m in metrics && m.source == source && m.session == s && !m.identified
    }

    function Coverage(s: Text): set<CallId> {
      set m, id | m in metrics && m.source == source && m.session == s && id in m.covered :: id
    }

    function Group(s: Text, model: Text): set<CallId> {
      set o | o in history && o.id.session == s && o.model == model :: o.id
    }

    function Shown(s: Text): set<CallId> {
      set o | o in history && o.id.session == s :: o.id
    }

    // Sessions of this source that are not in the log any more.
    function Past(): set<Text> {
      (Sources() + set o | o in history :: o.id.session) - live
    }

    /** Who may take over whom. */

    function Fallbacks(): set<Text> {
      set s | s in Past() && Origins(s) == {Some(Fallback)}
    }

    predicate ExplicitHistory() {
      exists m :: m in metrics && m.source == source && m.origin == Some(Explicit)
    }

    // Sessions whose origin the rows do not settle, or that an older writer may have bound.
    function Unknown(): set<Text> {
      set s | s in Past() &&
        if Origins(s) == {Some(Fallback)} then s !in bindings && (ExplicitHistory() || Legacy(s)) else Origins(s) != {Some(Explicit)}
    }

    // Without checkpoint provenance: explicit sessions may take over fallback ones, and anyone may be
    // taken for one of unknown origin, only to be refused.
    function Proposed(calls: seq<Call>): Targets {
      if cached.Some? then cached.value
      else map t | t in live :: Unknown() + (if IsExplicit(calls, t) then Fallbacks() else {})
    }

    // Durable bindings constrain the proposed aliases.
    function Constrained(proposed: Targets): Targets {
      map t | t in proposed ::
        (set s | s in proposed[t] && !(s in bindings && bindings[s].to != t)) + (set s | s in bindings && bindings[s].to == t && s !in live)
    }

    function GenerationOf(s: Text): Generation {
      if s in bindings && bindings[s].identity != identity then Other
      else if checkpointIdentity.Some? && exists o :: o in history && o.id.session == s then
        if checkpointIdentity.value == identity then Same else Other
      else if Generations(s) == {Some(identity)} then Same
      else if Generations(s) == {} || None in Generations(s) || Some(identity) in Generations(s) then Unsure
      else Other
    }

    function Eligible(calls: seq<Call>): Targets {
      var constrained := Constrained(Proposed(calls));
      map t | t in constrained :: set s | s in constrained[t] && GenerationOf(s) != Other
    }

    // A match with one of these is refused.
    predicate Barred(s: Text) {
      (cached.None? && s in Unknown() && s !in bindings) || GenerationOf(s) == Unsure
    }

    /** Matching calls. */

    function Candidates(s: Text): set<CallId> {
      (if resumable then {} else Coverage(s)) + Shown(s)
    }

    // The sessions under which a call is already recorded, among those its own session may take over.
    function Matches(targets: Targets, c: Call): set<Text> {
      if c.session in targets
      then set s | s in targets[c.session] && s !in live && CallId(s, c.native) in Candidates(s)
      else {}
    }

    // Historical hashes do not tell a position from an id that is a number.
    predicate Positional(c: Call) {
      source.runtime == HUMAIN_TERMINAL && IsDecimal(c.native)
    }

    // The call is recorded nowhere else, or under exactly one session, by an id that means the same there.
    predicate Unambiguous(targets: Targets, c: Call) {
      var matches := Matches(targets, c);
      matches == {} || (|matches| == 1 && c.stable && !Positional(c) && forall s :: s in matches ==> !Barred(s))
    }

    // A live session that was a fallback, or was promoted under another inode, with rows that are not all of
    // this one.
    predicate LiveGenerationUnclear(calls: seq<Call>) {
      !resumable && exists c :: c in calls && Recorded(c.session) && Generations(c.session) != {Some(identity)} && Promotable(calls, c.session)
    }

    predicate Promotable(calls: seq<Call>, s: Text) {
      || Some(Fallback) in Origins(s)
      || (exists c :: c in calls && c.session == s && c.origin == Some(Fallback))
      || exists f :: f in bindings && bindings[f].to == s && bindings[f].identity != identity
    }

    // A session that may be taken over has rows that identify no calls.
    predicate TotalsOnly(targets: Targets) {
      !resumable && exists t, s :: t in targets && s in targets[t] && s !in live && Unidentified(s)
    }

    // The calls of this log that are recorded under a session.
    function MatchedIds(targets: Targets, calls: seq<Call>, s: Text): set<CallId> {
      set c | c in calls && s in Matches(targets, c) :: CallId(s, c.native)
    }

    // Some but not all of the calls known under a matched session were matched.
    predicate Incomplete(targets: Targets, calls: seq<Call>) {
      !resumable && exists c, s :: c in calls && s in Matches(targets, c) && SomeMissing(s, MatchedIds(targets, calls, s))
    }

    predicate SomeMissing(s: Text, matched: set<CallId>) {
      || Partial(Coverage(s), matched)
      || exists o :: o in history && o.id.session == s && Partial(Group(s, o.model), matched)
    }
  }

  datatype Generation = Same | Other | Unsure

  predicate IsExplicit(calls: seq<Call>, s: Text) {
    exists c :: c in calls && c.session == s && c.origin == Some(Explicit)
  }

  predicate IsDecimal(t: Text) {
    t != [] && forall i :: 0 <= i < |t| ==> 48 <= t[i] <= 57
  }

  predicate Partial(ids: set<CallId>, matched: set<CallId>) {
    ids * matched != {} && !(ids <= matched)
  }

  function SessionsOf(calls: seq<Call>): set<Text> {
    set c | c in calls :: c.session
  }

  /******* Deciding *******/

  // Every alias is to one target, is eligible for it and not barred, and is not a session of the log itself.
  ghost predicate AliasesOk(u: Situation, aliases: map<Text, Text>, targets: Targets, calls: seq<Call>) {
    forall s :: s in aliases ==>
      s !in u.live && !u.Barred(s) && aliases[s] in SessionsOf(calls) && aliases[s] in targets && s in targets[aliases[s]]
  }

  // Each matched session goes to the session of the calls that matched it.
  ghost predicate AliasesFit(u: Situation, aliases: map<Text, Text>, targets: Targets, calls: seq<Call>) {
    && (forall c, s :: c in calls && s in u.Matches(targets, c) ==> s in aliases && aliases[s] == c.session)
    && forall s :: s in aliases ==> exists c :: c in calls && s in u.Matches(targets, c)
  }

  // A matched call keeps its old identity.
  ghost predicate RenamedAs(u: Situation, targets: Targets, c: Call, c': Call) {
    if u.Matches(targets, c) == {} then c' == c
    else c'.session in u.Matches(targets, c) && c' == c.(session := c'.session, origin := Some(Fallback))
  }

  ghost predicate Renamed(u: Situation, targets: Targets, calls: seq<Call>, renamed: seq<Call>) {
    |renamed| == |calls| && forall i :: 0 <= i < |calls| ==> RenamedAs(u, targets, calls[i], renamed[i])
  }

  // Two calls of different sessions claim the same recorded session.
  ghost predicate TwoTargets(u: Situation, targets: Targets, calls: seq<Call>) {
    exists c, d, s :: c in calls && d in calls && c.session != d.session && s in u.Matches(targets, c) && s in u.Matches(targets, d)
  }

  // Why an ingest is refused.
  ghost predicate Refused(u: Situation, calls: seq<Call>) {
    var targets := u.Eligible(calls);
    calls != [] &&
    (|| u.LiveGenerationUnclear(calls)
     || u.TotalsOnly(targets)
     || (exists c :: c in calls && !u.Unambiguous(targets, c))
     || TwoTargets(u, targets, calls)
     || u.Incomplete(targets, calls))
  }

  // `_reconcile_source_calls`: match each call against the ids recorded under the eligible sessions. It is
  // refused exactly for one of the reasons above.
  method Reconcile(u: Situation, calls: seq<Call>) returns (aliases: Option<map<Text, Text>>, renamed: seq<Call>)
    requires SessionsOf(calls) <= u.live
    ensures (aliases.None? <==> Refused(u, calls)) && (aliases.None? ==> calls != [])
    ensures aliases.Some? ==>
              AliasesOk(u, aliases.value, u.Eligible(calls), calls) && AliasesFit(u, aliases.value, u.Eligible(calls), calls)
              && Renamed(u, u.Eligible(calls), calls, renamed)
  {
    hide Situation.Eligible, Situation.LiveGenerationUnclear, Situation.TotalsOnly, Situation.Incomplete, Situation.Unambiguous,
      Situation.Matches, SessionsOf;
    renamed := [];
    if calls == [] {
      return Some(map[]), [];
    }
    var unclear := CheckLiveGenerations(u, calls);
    if unclear {
      return None, [];
    }
    var targets := u.Eligible(calls);
    var totalsOnly := CheckTotalsOnly(u, targets);
    if totalsOnly {
      return None, [];
    }
    aliases, renamed := MatchCalls(u, targets, calls);
    if aliases.Some? {
      var incomplete := CheckCoverage(u, targets, calls, aliases.value);
      aliases := if incomplete then None else aliases;
    }
  }

  // Before any id is compared: a live session that may be a fallback needs rows of this inode only.
  method CheckLiveGenerations(u: Situation, calls: seq<Call>) returns (unclear: bool)
    ensures unclear <==> u.LiveGenerationUnclear(calls)
  {
    hide Situation.Recorded, Situation.Generations, Situation.Origins;
    if u.resumable {
      return false;
    }
    var fallback := set c | c in calls && c.origin == Some(Fallback) :: c.session;
    var i := 0;
    while i < |calls|
      invariant 0 <= i <= |calls|
      invariant forall c :: c in calls[..i] ==>
                  !(u.Recorded(c.session) && u.Generations(c.session) != {Some(u.identity)} && u.Promotable(calls, c.session))
    {
      var c := calls[i];
      assert c in calls && calls[..i + 1] == calls[..i] + [c];
      if u.Recorded(c.session) {
        var rotated := exists f :: f in u.bindings && u.bindings[f].to == c.session && u.bindings[f].identity != u.identity;
        if (c.session in fallback || Some(Fallback) in u.Origins(c.session) || rotated) && u.Generations(c.session) != {Some(u.identity)} {
          return true;
        }
      }
      i := i + 1;
    }
    assert calls[..i] == calls;
    unclear := false;
  }

  // Each recorded session that may be taken over must identify its calls.
  method CheckTotalsOnly(u: Situation, targets: Targets) returns (found: bool)
    ensures found <==> u.TotalsOnly(targets)
  {
    if u.resumable {
      return false;
    }
    var eligible := set t, s | t in targets && s in targets[t] :: s;
    var left := u.Sources();
    while left != {}
      invariant left <= u.Sources()
      invariant forall s :: s in u.Sources() - left && s in eligible && s !in u.live ==> !u.Unidentified(s)
    {
      var s :| s in left;
      left := left - {s};
      if s !in u.live && s in eligible && u.Unidentified(s) {
        var t :| t in targets && s in targets[t];
        return true;
      }
    }
    UnidentifiedAreRecorded(u);
    forall t, s | t in targets && s in targets[t] && s !in u.live ensures !u.Unidentified(s) {
      assert s in eligible;
    }
    found := false;
  }

  lemma UnidentifiedAreRecorded(u: Situation)
    ensures forall s :: u.Unidentified(s) ==> s in u.Sources()
  {
  }

  // The log must show every call known under a session that was matched.
  method CheckCoverage(u: Situation, targets: Targets, calls: seq<Call>, aliases: map<Text, Text>) returns (missing: bool)
    requires AliasesFit(u, aliases, targets, calls)
    ensures missing <==> u.Incomplete(targets, calls)
  {
    hide Situation.Matches, Situation.SomeMissing;
    if u.resumable {
      return false;
    }
    var left := aliases.Keys;
    while left != {}
      invariant left <= aliases.Keys
      invariant forall s :: s in aliases.Keys - left ==> !u.SomeMissing(s, u.MatchedIds(targets, calls, s))
    {
      var s :| s in left;
      left := left - {s};
      if u.SomeMissing(s, u.MatchedIds(targets, calls, s)) {
        ghost var c :| c in calls && s in u.Matches(targets, c);
        return true;
      }
    }
    missing := false;
  }

  // The loop over the calls.
  method MatchCalls(u: Situation, targets: Targets, calls: seq<Call>) returns (aliases: Option<map<Text, Text>>, renamed: seq<Call>)
    requires SessionsOf(calls) <= u.live
    ensures aliases.Some? ==>
              AliasesOk(u, aliases.value, targets, calls) && AliasesFit(u, aliases.value, targets, calls) && Renamed(u, targets, calls, renamed)
    ensures aliases.None? <==> (exists c :: c in calls && !u.Unambiguous(targets, c)) || TwoTargets(u, targets, calls)
  {
    hide Situation.Matches, AliasesOk, AliasesFit, Situation.Unambiguous, SessionsOf, RenamedAs;
    var found: map<Text, Text> := map[];
    NoAliases(u, targets);
    renamed := [];
    var i := 0;
    while i < |calls|
      invariant 0 <= i <= |calls|
      invariant AliasesOk(u, found, targets, calls[..i]) && AliasesFit(u, found, targets, calls[..i])
      invariant Renamed(u, targets, calls[..i], renamed)
      invariant forall c :: c in calls[..i] ==> u.Unambiguous(targets, c)
    {
      var c := calls[i];
      assert c in calls && calls[..i + 1] == calls[..i] + [c];
      InLive(u, calls, c);
      if !u.Unambiguous(targets, c) {
        return None, [];
      }
      var matches := u.Matches(targets, c);
      if matches == {} {
        NotMatched(u, found, targets, calls[..i], c);
        renamed := renamed + [c];
      } else {
        var s :| s in matches;
        if s in found && found[s] != c.session {
          OtherMatch(u, found, targets, calls[..i], s);
          ghost var d :| d in calls[..i] && s in u.Matches(targets, d) && d.session == found[s];
          assert d in calls;
          return None, [];
        }
        Matched(u, found, targets, calls[..i], c, s);
        found := found[s := c.session];
        renamed := renamed + [c.(session := s, origin := Some(Fallback))];
        IsRenamed(u, targets, c, s);
      }
      i := i + 1;
    }
    assert calls[..i] == calls;
    FitHasOneTarget(u, found, targets, calls);
    aliases := Some(found);
  }

  lemma InLive(u: Situation, calls: seq<Call>, c: Call)
    requires SessionsOf(calls) <= u.live && c in calls
    ensures c.session in u.live
  {
    assert c.session in SessionsOf(calls);
  }

  lemma IsRenamed(u: Situation, targets: Targets, c: Call, s: Text)
    requires s in u.Matches(targets, c)
    ensures RenamedAs(u, targets, c, c.(session := s, origin := Some(Fallback)))
    ensures u.Matches(targets, c) == {} ==> RenamedAs(u, targets, c, c)
  {
  }

  lemma NoAliases(u: Situation, targets: Targets)
    ensures AliasesOk(u, map[], targets, []) && AliasesFit(u, map[], targets, [])
  {
  }

  lemma FitHasOneTarget(u: Situation, found: map<Text, Text>, targets: Targets, calls: seq<Call>)
    requires AliasesFit(u, found, targets, calls)
    ensures !TwoTargets(u, targets, calls)
  {
    hide Situation.Matches;
    forall c, d, s | c in calls && d in calls && s in u.Matches(targets, c) && s in u.Matches(targets, d)
      ensures c.session == d.session
    {
      assert found[s] == c.session;
    }
  }

  lemma NotMatched(u: Situation, found: map<Text, Text>, targets: Targets, before: seq<Call>, c: Call)
    requires AliasesOk(u, found, targets, before) && AliasesFit(u, found, targets, before) && u.Matches(targets, c) == {}
    ensures AliasesOk(u, found, targets, before + [c]) && AliasesFit(u, found, targets, before + [c]) && RenamedAs(u, targets, c, c)
  {
    hide Situation.Matches, Situation.Barred;
    forall s | s in found
      ensures found[s] in SessionsOf(before + [c]) && exists d :: d in before + [c] && s in u.Matches(targets, d)
    {
      var d :| d in before && s in u.Matches(targets, d);
      assert d in before + [c] && found[s] == d.session;
    }
  }

  // A session that has a target has it from a call that matched it.
  lemma OtherMatch(u: Situation, found: map<Text, Text>, targets: Targets, before: seq<Call>, s: Text)
    requires AliasesFit(u, found, targets, before) && s in found
    ensures exists d :: d in before && s in u.Matches(targets, d) && d.session == found[s]
  {
    hide Situation.Matches;
    var d :| d in before && s in u.Matches(targets, d);
    assert found[s] == d.session;
  }

  lemma Matched(u: Situation, found: map<Text, Text>, targets: Targets, before: seq<Call>, c: Call, s: Text)
    requires AliasesOk(u, found, targets, before) && AliasesFit(u, found, targets, before)
    requires u.Unambiguous(targets, c) && s in u.Matches(targets, c)
    requires s in found ==> found[s] == c.session
    ensures AliasesOk(u, found[s := c.session], targets, before + [c])
    ensures AliasesFit(u, found[s := c.session], targets, before + [c])
  {
    hide Situation.Matches, Situation.Barred, Situation.Unambiguous;
    MatchIsEligible(u, targets, c, s);
    var found' := found[s := c.session];
    forall o | o in found'
      ensures found'[o] in SessionsOf(before + [c]) && exists d :: d in before + [c] && o in u.Matches(targets, d)
    {
      if o == s {
        assert c in before + [c];
      } else {
        var d :| d in before && o in u.Matches(targets, d);
        assert d in before + [c] && found[o] == d.session;
      }
    }
  }

  lemma OnlyMatch(matches: set<Text>, s: Text)
    requires |matches| == 1 && s in matches
    ensures matches == {s}
  {
    assert |matches - {s}| == 0;
  }

  lemma MatchIsEligible(u: Situation, targets: Targets, c: Call, s: Text)
    requires s in u.Matches(targets, c) && u.Unambiguous(targets, c)
    ensures c.session in targets && s in targets[c.session] && s !in u.live
    ensures u.Matches(targets, c) == {s} && !u.Barred(s)
  {
    OnlyMatch(u.Matches(targets, c), s);
  }

  /******* The decision, read off the rows, the history and the bindings *******/

  ghost predicate IsRowOf(u: Situation, m: Metric, s: Text) {
    m in u.metrics && m.source == u.source && m.session == s
  }

  ghost predicate HasRow(u: Situation, s: Text) {
    exists m :: IsRowOf(u, m, s)
  }

  ghost predicate WasShown(u: Situation, s: Text) {
    exists o :: o in u.history && o.id.session == s
  }

  ghost predicate OnlyOrigin(u: Situation, s: Text, origin: Origin) {
    HasRow(u, s) && forall m :: IsRowOf(u, m, s) ==> m.origin == Some(origin)
  }

  // The checkpoint that showed the session, or else every row of it, is of the present inode.
  ghost predicate SameInode(u: Situation, s: Text) {
    if u.checkpointIdentity.Some? && WasShown(u, s) then u.checkpointIdentity == Some(u.identity)
    else HasRow(u, s) && forall m :: IsRowOf(u, m, s) ==> m.identity == Some(u.identity)
  }

  // It, or every row, is of a known other one.
  ghost predicate OtherInode(u: Situation, s: Text) {
    if u.checkpointIdentity.Some? && WasShown(u, s) then u.checkpointIdentity != Some(u.identity)
    else HasRow(u, s) && forall m :: IsRowOf(u, m, s) ==> m.identity.Some? && m.identity != Some(u.identity)
  }

  // The session's call was shown before, or a row covers it and the log was read from the start.
  ghost predicate KnownAs(u: Situation, s: Text, native: Text) {
    || (exists o :: o in u.history && o.id == CallId(s, native))
    || (!u.resumable && exists m :: IsRowOf(u, m, s) && CallId(s, native) in m.covered)
  }

  // No checkpoint and no binding says whose session it was, and the rows do not settle it: they are not of
  // one origin, or it is a fallback that an explicit session of the source may have consumed already.
  ghost predicate OriginUnknown(u: Situation, s: Text) {
    && u.cached.None? && s !in u.bindings && (HasRow(u, s) || WasShown(u, s)) && !OnlyOrigin(u, s, Explicit)
    && (OnlyOrigin(u, s, Fallback) ==>
          || (exists m :: m in u.metrics && m.source == u.source && m.origin == Some(Explicit))
          || exists m :: IsRowOf(u, m, s) && !m.current)
  }

  // What lets a session of the log take over one that is not in it: the binding, which must be of this inode;
  // or the checkpoint's aliases; or, with neither, that it is explicit and the other was only a fallback.
  ghost predicate MayTake(u: Situation, calls: seq<Call>, t: Text, s: Text) {
    && (u.cached.Some? ==> t in u.cached.value) && (u.cached.None? ==> t in u.live)
    && if s in u.bindings then u.bindings[s] == Binding(t, u.identity)
       else if u.cached.Some? then s in u.cached.value[t]
       else (exists c :: c in calls && c.session == t && c.origin == Some(Explicit)) && OnlyOrigin(u, s, Fallback)
  }

  // The same, or nobody knows.
  ghost predicate MightTake(u: Situation, calls: seq<Call>, t: Text, s: Text) {
    (MayTake(u, calls, t, s) || (t in u.live && OriginUnknown(u, s))) && !OtherInode(u, s)
  }

  // The call is one that is known under the session, which its own session may or might take over.
  ghost predicate Claims(u: Situation, calls: seq<Call>, c: Call, s: Text) {
    s !in u.live && KnownAs(u, s, c.native) && MightTake(u, calls, c.session, s)
  }

  ghost predicate TakesOver(u: Situation, calls: seq<Call>, c: Call, s: Text) {
    s !in u.live && KnownAs(u, s, c.native) && MayTake(u, calls, c.session, s) && SameInode(u, s)
  }

  lemma PastIff(u: Situation, s: Text)
    ensures s in u.Past() <==> s !in u.live && (HasRow(u, s) || WasShown(u, s))
    ensures s in u.Sources() <==> HasRow(u, s)
  {
    if m :| IsRowOf(u, m, s) {
      assert m in u.metrics && m.source == u.source && m.session == s;
    }
    if s in u.Sources() {
      var m :| m in u.metrics && m.source == u.source && m.session == s;
      assert IsRowOf(u, m, s);
    }
  }

  lemma OriginsIff(u: Situation, s: Text, origin: Origin)
    ensures u.Origins(s) == {Some(origin)} <==> OnlyOrigin(u, s, origin)
  {
    if OnlyOrigin(u, s, origin) {
      var m :| IsRowOf(u, m, s);
      assert m.origin in u.Origins(s);
      assert forall o :: o in u.Origins(s) ==> o == Some(origin);
    }
    if u.Origins(s) == {Some(origin)} {
      assert Some(origin) in u.Origins(s);
      var m :| m in u.metrics && m.source == u.source && m.session == s && m.origin == Some(origin);
      assert IsRowOf(u, m, s);
      forall m | IsRowOf(u, m, s) ensures m.origin == Some(origin) {
        assert m.origin in u.Origins(s);
      }
    }
  }

  lemma GenerationsHold(u: Situation, s: Text, identity: Option<nat>)
    ensures identity in u.Generations(s) <==> exists m :: IsRowOf(u, m, s) && m.identity == identity
  {
    if m :| IsRowOf(u, m, s) && m.identity == identity {
      assert m in u.metrics && m.source == u.source && m.session == s;
    }
    if identity in u.Generations(s) {
      var m :| m in u.metrics && m.source == u.source && m.session == s && m.identity == identity;
      assert IsRowOf(u, m, s);
    }
  }

  lemma GenerationsIff(u: Situation, s: Text)
    ensures u.Generations(s) == {Some(u.identity)} <==> HasRow(u, s) && forall m :: IsRowOf(u, m, s) ==> m.identity == Some(u.identity)
    ensures u.Generations(s) == {} || None in u.Generations(s) || Some(u.identity) in u.Generations(s) <==>
            !(HasRow(u, s) && forall m :: IsRowOf(u, m, s) ==> m.identity.Some? && m.identity != Some(u.identity))
  {
    hide Situation.Generations, IsRowOf;
    forall i ensures i in u.Generations(s) <==> exists m :: IsRowOf(u, m, s) && m.identity == i {
      GenerationsHold(u, s, i);
    }
    forall m | IsRowOf(u, m, s) ensures m.identity in u.Generations(s) {
    }
    if u.Generations(s) == {Some(u.identity)} {
      assert Some(u.identity) in u.Generations(s);
    }
    if HasRow(u, s) && forall m :: IsRowOf(u, m, s) ==> m.identity == Some(u.identity) {
      assert forall i :: i in u.Generations(s) ==> i == Some(u.identity);
    }
  }

  // The rule for generations: a binding of another inode settles it, then a checkpoint that showed the session,
  // then the rows.
  lemma GenerationIff(u: Situation, s: Text)
    ensures s in u.bindings && u.bindings[s].identity != u.identity ==> u.GenerationOf(s) == Other
    ensures !(s in u.bindings && u.bindings[s].identity != u.identity) ==>
              (u.GenerationOf(s) == Same <==> SameInode(u, s)) && (u.GenerationOf(s) == Other <==> OtherInode(u, s))
  {
    hide Situation.Generations, IsRowOf, HasRow;
    GenerationsIff(u, s);
  }

  lemma UnknownIff(u: Situation, s: Text)
    requires u.cached.None? && s !in u.bindings && s !in u.live
    ensures s in u.Unknown() <==> OriginUnknown(u, s)
    ensures s in u.Fallbacks() <==> OnlyOrigin(u, s, Fallback)
  {
    hide Situation.Origins, Situation.Past, HasRow, WasShown;
    PastIff(u, s);
    OriginsIff(u, s, Fallback);
    OriginsIff(u, s, Explicit);
    assert u.Legacy(s) <==> exists m :: IsRowOf(u, m, s) && !m.current by {
      if m :| IsRowOf(u, m, s) && !m.current {
        assert m in u.metrics && m.source == u.source && m.session == s;
      }
      if m :| m in u.metrics && m.source == u.source && m.session == s && !m.current {
        assert IsRowOf(u, m, s);
      }
    }
  }

  lemma EligibleIff(u: Situation, calls: seq<Call>, t: Text, s: Text)
    requires s !in u.live
    ensures t in u.Eligible(calls) && s in u.Eligible(calls)[t] <==> MightTake(u, calls, t, s)
  {
    hide Situation.GenerationOf, Situation.Unknown, Situation.Fallbacks, OriginUnknown, SameInode, OtherInode, OnlyOrigin;
    GenerationIff(u, s);
    if u.cached.None? && s !in u.bindings {
      UnknownIff(u, s);
    }
    assert OriginUnknown(u, s) ==> u.cached.None? && s !in u.bindings by {
      OriginKnown(u, s);
    }
    var proposed := u.Proposed(calls);
    var constrained := u.Constrained(proposed);
    if s in u.bindings {
      assert t in constrained ==> (s in constrained[t] <==> u.bindings[s].to == t);
    } else {
      assert t in constrained ==> (s in constrained[t] <==> s in proposed[t]);
    }
  }

  lemma OriginKnown(u: Situation, s: Text)
    ensures OriginUnknown(u, s) ==> u.cached.None? && s !in u.bindings
  {
  }

  lemma CandidateIff(u: Situation, s: Text, native: Text)
    ensures CallId(s, native) in u.Candidates(s) <==> KnownAs(u, s, native)
  {
    CoverageIff(u, s, CallId(s, native));
    if CallId(s, native) in u.Shown(s) {
      var o :| o in u.history && o.id.session == s && o.id == CallId(s, native);
    }
    if o :| o in u.history && o.id == CallId(s, native) {
      assert o.id.session == s;
    }
  }

  lemma CoverageIff(u: Situation, s: Text, id: CallId)
    ensures id in u.Coverage(s) <==> exists m :: IsRowOf(u, m, s) && id in m.covered
  {
    if m :| IsRowOf(u, m, s) && id in m.covered {
      assert m in u.metrics && m.source == u.source && m.session == s && id in m.covered;
    }
    if id in u.Coverage(s) {
      var m :| m in u.metrics && m.source == u.source && m.session == s && id in m.covered;
      assert IsRowOf(u, m, s);
    }
  }

  // A call matches exactly the sessions it can lay claim to, and one of them is barred exactly when its origin or
  // its inode is in doubt.
  lemma MatchesIff(u: Situation, calls: seq<Call>, c: Call, s: Text)
    ensures s in u.Matches(u.Eligible(calls), c) <==> Claims(u, calls, c, s)
    ensures Claims(u, calls, c, s) ==> (u.Barred(s) <==> OriginUnknown(u, s) || !SameInode(u, s))
    ensures TakesOver(u, calls, c, s) ==> Claims(u, calls, c, s)
    ensures Claims(u, calls, c, s) && !OriginUnknown(u, s) && SameInode(u, s) ==> TakesOver(u, calls, c, s)
  {
    hide Situation.Eligible, Situation.GenerationOf, Situation.Unknown, Situation.Candidates, KnownAs, OriginUnknown, OnlyOrigin, IsExplicit,
      IsRowOf;
    CandidateIff(u, s, c.native);
    GenerationIff(u, s);
    OriginKnown(u, s);
    OneOrigin(u, s);
    if s !in u.live {
      EligibleIff(u, calls, c.session, s);
      if u.cached.None? && s !in u.bindings {
        UnknownIff(u, s);
      }
    }
  }

  lemma OneOrigin(u: Situation, s: Text)
    ensures !(SameInode(u, s) && OtherInode(u, s))
  {
  }

  ghost predicate LiveUnclear(u: Situation, calls: seq<Call>, c: Call) {
    && HasRow(u, c.session) && !(forall m :: IsRowOf(u, m, c.session) ==> m.identity == Some(u.identity))
    && (|| (exists m :: IsRowOf(u, m, c.session) && m.origin == Some(Fallback))
        || (exists d :: d in calls && d.session == c.session && d.origin == Some(Fallback))
        || exists f :: f in u.bindings && u.bindings[f].to == c.session && u.bindings[f].identity != u.identity)
  }

  // The call claims a session in doubt, or by an id that is only a position or not its own, or two sessions.
  ghost predicate Doubtful(u: Situation, calls: seq<Call>, c: Call) {
    exists s :: Claims(u, calls, c, s) && DoubtfulAs(u, calls, c, s)
  }

  ghost predicate DoubtfulAs(u: Situation, calls: seq<Call>, c: Call, s: Text) {
    || OriginUnknown(u, s) || !SameInode(u, s) || !c.stable || (u.source.runtime == HUMAIN_TERMINAL && IsDecimal(c.native))
    || exists o :: o != s && Claims(u, calls, c, o)
  }

  ghost predicate ClaimedTwice(u: Situation, calls: seq<Call>) {
    exists c, d, s :: c in calls && d in calls && c.session != d.session && Claims(u, calls, c, s) && Claims(u, calls, d, s)
  }

  // The two ids are covered by rows of the session, or were shown in one group of it.
  ghost predicate Together(u: Situation, s: Text, a: CallId, b: CallId) {
    || (Covers(u, s, a) && Covers(u, s, b))
    || exists model :: Observed(model, a) in u.history && Observed(model, b) in u.history && a.session == b.session == s
  }

  ghost predicate Covers(u: Situation, s: Text, id: CallId) {
    exists m :: IsRowOf(u, m, s) && id in m.covered
  }

  ghost predicate Met(u: Situation, calls: seq<Call>, s: Text, id: CallId) {
    exists c :: c in calls && Claims(u, calls, c, s) && id == CallId(s, c.native)
  }

  ghost predicate Fragmentary(u: Situation, calls: seq<Call>) {
    exists s, a, b :: Together(u, s, a, b) && Met(u, calls, s, a) && !Met(u, calls, s, b)
  }

  lemma UnambiguousIff(u: Situation, calls: seq<Call>, c: Call)
    ensures u.Unambiguous(u.Eligible(calls), c) <==> !Doubtful(u, calls, c)
  {
    hide Situation.Matches, Situation.Eligible, Situation.Barred, Claims, OriginUnknown, SameInode, TakesOver, IsDecimal;
    var matches := u.Matches(u.Eligible(calls), c);
    forall s
      ensures s in matches <==> Claims(u, calls, c, s)
      ensures s in matches ==> (u.Barred(s) <==> OriginUnknown(u, s) || !SameInode(u, s))
    {
      MatchesIff(u, calls, c, s);
    }
    if s :| s in matches {
      assert Claims(u, calls, c, s);
      if |matches| == 1 {
        OnlyMatch(matches, s);
        assert Doubtful(u, calls, c) <==> DoubtfulAs(u, calls, c, s);
      } else {
        assert matches != {s};
        assert exists o :: o in matches && o != s;
        assert DoubtfulAs(u, calls, c, s);
      }
    }
  }

  lemma TwoTargetsIff(u: Situation, calls: seq<Call>)
    ensures TwoTargets(u, u.Eligible(calls), calls) <==> ClaimedTwice(u, calls)
  {
    hide Situation.Matches, Situation.Eligible, Claims, TakesOver, Situation.Barred, OriginUnknown, SameInode;
    var targets := u.Eligible(calls);
    forall c, s ensures s in u.Matches(targets, c) <==> Claims(u, calls, c, s) {
      MatchesIff(u, calls, c, s);
    }
    if c, d, s :| c in calls && d in calls && c.session != d.session && s in u.Matches(targets, c) && s in u.Matches(targets, d) {
      assert Claims(u, calls, c, s) && Claims(u, calls, d, s);
    }
    if c, d, s :| c in calls && d in calls && c.session != d.session && Claims(u, calls, c, s) && Claims(u, calls, d, s) {
      assert s in u.Matches(targets, c) && s in u.Matches(targets, d);
    }
  }

  lemma LiveUnclearIff(u: Situation, calls: seq<Call>)
    ensures u.LiveGenerationUnclear(calls) <==> !u.resumable && exists c :: c in calls && LiveUnclear(u, calls, c)
  {
    hide Situation.Generations, Situation.Origins, LiveUnclear, Situation.Promotable, Situation.Recorded;
    forall c | c in calls
      ensures LiveUnclear(u, calls, c) <==>
              u.Recorded(c.session) && u.Generations(c.session) != {Some(u.identity)} && u.Promotable(calls, c.session)
    {
      LiveUnclearOne(u, calls, c);
    }
  }

  lemma LiveUnclearOne(u: Situation, calls: seq<Call>, c: Call)
    ensures LiveUnclear(u, calls, c) <==>
            u.Recorded(c.session) && u.Generations(c.session) != {Some(u.identity)} && u.Promotable(calls, c.session)
  {
    hide Situation.Generations, Situation.Origins, IsRowOf;
    GenerationsIff(u, c.session);
    RecordedIff(u, c.session);
    FallbackIff(u, c.session);
  }

  lemma RecordedIff(u: Situation, s: Text)
    ensures u.Recorded(s) <==> HasRow(u, s)
    ensures u.Unidentified(s) <==> exists m :: IsRowOf(u, m, s) && !m.identified
  {
    if m :| m in u.metrics && m.source == u.source && m.session == s {
      assert IsRowOf(u, m, s);
    }
    if m :| m in u.metrics && m.source == u.source && m.session == s && !m.identified {
      assert IsRowOf(u, m, s) && !m.identified;
    }
    if m :| IsRowOf(u, m, s) && !m.identified {
      assert m in u.metrics && m.source == u.source && m.session == s && !m.identified;
    }
  }

  lemma FallbackIff(u: Situation, s: Text)
    ensures Some(Fallback) in u.Origins(s) <==> exists m :: IsRowOf(u, m, s) && m.origin == Some(Fallback)
  {
    if m :| IsRowOf(u, m, s) && m.origin == Some(Fallback) {
      assert m in u.metrics && m.source == u.source && m.session == s;
    }
    if Some(Fallback) in u.Origins(s) {
      var m :| m in u.metrics && m.source == u.source && m.session == s && m.origin == Some(Fallback);
      assert IsRowOf(u, m, s);
    }
  }

  // A session that may be taken over has a row that identifies no calls.
  ghost predicate TotalsAtStake(u: Situation, calls: seq<Call>) {
    exists t, s, m :: s !in u.live && MightTake(u, calls, t, s) && IsRowOf(u, m, s) && !m.identified
  }

  lemma TotalsOnlyIff(u: Situation, calls: seq<Call>)
    ensures u.TotalsOnly(u.Eligible(calls)) <==> !u.resumable && TotalsAtStake(u, calls)
  {
    hide Situation.Eligible, MightTake, Situation.Unidentified, IsRowOf;
    var targets := u.Eligible(calls);
    forall s ensures u.Unidentified(s) <==> exists m :: IsRowOf(u, m, s) && !m.identified {
      RecordedIff(u, s);
    }
    forall t, s | s !in u.live ensures t in targets && s in targets[t] <==> MightTake(u, calls, t, s) {
      EligibleIff(u, calls, t, s);
    }
    if t, s :| t in targets && s in targets[t] && s !in u.live && u.Unidentified(s) {
      var m :| IsRowOf(u, m, s) && !m.identified;
      assert MightTake(u, calls, t, s);
    }
    if t, s, m :| s !in u.live && MightTake(u, calls, t, s) && IsRowOf(u, m, s) && !m.identified {
      assert t in targets && s in targets[t] && u.Unidentified(s);
    }
  }

  lemma PartialIff(ids: set<CallId>, matched: set<CallId>)
    ensures Partial(ids, matched) <==> exists a, b :: a in ids && b in ids && a in matched && b !in matched
  {
    if Partial(ids, matched) {
      var a :| a in ids * matched;
      var b :| b in ids && b !in matched;
    }
    if a, b :| a in ids && b in ids && a in matched && b !in matched {
      assert a in ids * matched;
    }
  }

  lemma MissingIff(u: Situation, s: Text, matched: set<CallId>)
    ensures u.SomeMissing(s, matched) <==> exists a, b :: Together(u, s, a, b) && a in matched && b !in matched
  {
    hide Situation.Coverage, Situation.Group, Partial, Covers;
    forall id ensures id in u.Coverage(s) <==> Covers(u, s, id) {
      CoverageIsCovers(u, s, id);
    }
    forall model, id ensures id in u.Group(s, model) <==> Observed(model, id) in u.history && id.session == s {
      GroupIff(u, s, model, id);
    }
    PartialIff(u.Coverage(s), matched);
    forall o | o in u.history && o.id.session == s && Partial(u.Group(s, o.model), matched)
      ensures exists a, b :: Together(u, s, a, b) && a in matched && b !in matched
    {
      PartialIff(u.Group(s, o.model), matched);
      var a, b :| a in u.Group(s, o.model) && b in u.Group(s, o.model) && a in matched && b !in matched;
      assert Observed(o.model, a) in u.history && Observed(o.model, b) in u.history;
    }
    if Partial(u.Coverage(s), matched) {
      var a, b :| a in u.Coverage(s) && b in u.Coverage(s) && a in matched && b !in matched;
      assert Together(u, s, a, b);
    }
    if a, b :| Together(u, s, a, b) && a in matched && b !in matched {
      if !(Covers(u, s, a) && Covers(u, s, b)) {
        var model :| Observed(model, a) in u.history && Observed(model, b) in u.history && a.session == b.session == s;
        PartialIff(u.Group(s, model), matched);
        assert a in u.Group(s, model) && b in u.Group(s, model);
        assert Observed(model, a) in u.history;
      }
    }
  }

  lemma CoverageIsCovers(u: Situation, s: Text, id: CallId)
    ensures id in u.Coverage(s) <==> Covers(u, s, id)
  {
    CoverageIff(u, s, id);
  }

  lemma GroupIff(u: Situation, s: Text, model: Text, id: CallId)
    ensures id in u.Group(s, model) <==> Observed(model, id) in u.history && id.session == s
  {
    if Observed(model, id) in u.history && id.session == s {
      var o := Observed(model, id);
      assert o in u.history && o.id.session == s && o.model == model;
    }
  }

  lemma MetIff(u: Situation, calls: seq<Call>, s: Text, id: CallId)
    ensures id in u.MatchedIds(u.Eligible(calls), calls, s) <==> Met(u, calls, s, id)
  {
    hide Situation.Matches, Situation.Eligible, Claims, TakesOver, Situation.Barred, OriginUnknown, SameInode;
    var targets := u.Eligible(calls);
    forall c ensures s in u.Matches(targets, c) <==> Claims(u, calls, c, s) {
      MatchesIff(u, calls, c, s);
    }
    if c :| c in calls && Claims(u, calls, c, s) && id == CallId(s, c.native) {
      assert s in u.Matches(targets, c);
    }
  }

  lemma IncompleteIff(u: Situation, calls: seq<Call>)
    ensures u.Incomplete(u.Eligible(calls), calls) <==> !u.resumable && Fragmentary(u, calls)
  {
    hide Situation.Matches, Situation.Eligible, Situation.SomeMissing, Situation.MatchedIds, Claims, TakesOver, Situation.Barred,
      OriginUnknown, SameInode, Together, Met;
    var targets := u.Eligible(calls);
    forall s, id ensures id in u.MatchedIds(targets, calls, s) <==> Met(u, calls, s, id) {
      MetIff(u, calls, s, id);
    }
    if c, s :| c in calls && s in u.Matches(targets, c) && u.SomeMissing(s, u.MatchedIds(targets, calls, s)) {
      MissingIff(u, s, u.MatchedIds(targets, calls, s));
      var a, b :| Together(u, s, a, b) && a in u.MatchedIds(targets, calls, s) && b !in u.MatchedIds(targets, calls, s);
      assert Met(u, calls, s, a) && !Met(u, calls, s, b);
    }
    if s, a, b :| Together(u, s, a, b) && Met(u, calls, s, a) && !Met(u, calls, s, b) {
      MissingIff(u, s, u.MatchedIds(targets, calls, s));
      assert a in u.MatchedIds(targets, calls, s);
      MatchedByACall(u, targets, calls, s, a);
    }
  }

  lemma MatchedByACall(u: Situation, targets: Targets, calls: seq<Call>, s: Text, id: CallId)
    requires id in u.MatchedIds(targets, calls, s)
    ensures exists c :: c in calls && s in u.Matches(targets, c)
  {
    hide Situation.Matches;
  }

  // When an ingest is refused, read off the rows, the history and the bindings.
  lemma RefusedIff(u: Situation, calls: seq<Call>)
    ensures Refused(u, calls) <==>
            calls != [] &&
            (|| (!u.resumable && exists c :: c in calls && LiveUnclear(u, calls, c))
             || (!u.resumable && TotalsAtStake(u, calls))
             || (exists c :: c in calls && Doubtful(u, calls, c))
             || ClaimedTwice(u, calls)
             || (!u.resumable && Fragmentary(u, calls)))
  {
    hide Situation.Eligible, Situation.LiveGenerationUnclear, Situation.TotalsOnly, Situation.Incomplete, Situation.Unambiguous, TwoTargets,
      LiveUnclear, TotalsAtStake, Doubtful, ClaimedTwice, Fragmentary;
    LiveUnclearIff(u, calls);
    TotalsOnlyIff(u, calls);
    forall c ensures u.Unambiguous(u.Eligible(calls), c) <==> !Doubtful(u, calls, c) {
      UnambiguousIff(u, calls, c);
    }
    TwoTargetsIff(u, calls);
    IncompleteIff(u, calls);
  }

  // A call under an inode that nothing settles is refused, not guessed.
  lemma UnsureIsRefused(u: Situation, calls: seq<Call>, c: Call, s: Text)
    requires c in calls && s !in u.live && KnownAs(u, s, c.native) && MayTake(u, calls, c.session, s)
    requires !SameInode(u, s) && !OtherInode(u, s)
    ensures Refused(u, calls)
  {
    hide SameInode, OtherInode, KnownAs, MayTake, OriginUnknown, IsDecimal, Refused;
    RefusedIff(u, calls);
    assert Claims(u, calls, c, s) && DoubtfulAs(u, calls, c, s);
    assert Doubtful(u, calls, c);
  }

  // What an ingest that is not refused takes over: a session is joined to another exactly when a call of that one is
  // known under it, and it may be taken: by its binding, the checkpoint's aliases or its recorded origin, under the
  // inode that is present now. Such a call keeps its old identity, and any other call its own.
  lemma TakenOverIff(u: Situation, calls: seq<Call>, aliases: map<Text, Text>, renamed: seq<Call>)
    requires calls != [] && !Refused(u, calls)
    requires AliasesFit(u, aliases, u.Eligible(calls), calls) && Renamed(u, u.Eligible(calls), calls, renamed)
    ensures forall s :: s in aliases ==> exists c :: c in calls && c.session == aliases[s] && TakesOver(u, calls, c, s)
    ensures forall c, s :: c in calls && TakesOver(u, calls, c, s) ==> s in aliases && aliases[s] == c.session
    ensures |renamed| == |calls| && forall i :: 0 <= i < |calls| ==>
              || (renamed[i] == calls[i] && forall s :: !TakesOver(u, calls, calls[i], s))
              || (renamed[i] == calls[i].(session := renamed[i].session, origin := Some(Fallback))
                  && TakesOver(u, calls, calls[i], renamed[i].session))
  {
    hide Situation.Eligible, Situation.Matches, Claims, TakesOver, Situation.Barred, OriginUnknown, SameInode;
    var targets := u.Eligible(calls);
    forall c, s | c in calls ensures s in u.Matches(targets, c) <==> TakesOver(u, calls, c, s) {
      MatchTakesOver(u, calls, c, s);
    }
    forall s | s in aliases ensures exists c :: c in calls && c.session == aliases[s] && TakesOver(u, calls, c, s) {
      var c :| c in calls && s in u.Matches(targets, c);
      assert TakesOver(u, calls, c, s) && aliases[s] == c.session;
    }
    forall i | 0 <= i < |calls|
      ensures || (renamed[i] == calls[i] && forall s :: !TakesOver(u, calls, calls[i], s))
              || (renamed[i] == calls[i].(session := renamed[i].session, origin := Some(Fallback))
                  && TakesOver(u, calls, calls[i], renamed[i].session))
    {
      assert RenamedAs(u, targets, calls[i], renamed[i]) && calls[i] in calls;
    }
  }

  lemma MatchTakesOver(u: Situation, calls: seq<Call>, c: Call, s: Text)
    requires calls != [] && !Refused(u, calls) && c in calls
    ensures s in u.Matches(u.Eligible(calls), c) <==> TakesOver(u, calls, c, s)
  {
    hide Situation.Eligible, Situation.Matches, Claims, TakesOver, Situation.Barred, OriginUnknown, SameInode, Situation.Positional,
      Situation.LiveGenerationUnclear, Situation.TotalsOnly, Situation.Incomplete, TwoTargets;
    MatchesIff(u, calls, c, s);
    assert u.Unambiguous(u.Eligible(calls), c);
  }

  // What a session that was taken over has going for it: its binding, if it has one, is to its taker under this
  // inode; the checkpoint, if it showed the session, is of this inode; and if it did not, all its rows are.
  lemma TakenOverMeans(u: Situation, calls: seq<Call>, aliases: map<Text, Text>, s: Text)
    requires calls != [] && !Refused(u, calls) && AliasesFit(u, aliases, u.Eligible(calls), calls) && s in aliases
    ensures s in u.bindings ==> u.bindings[s] == Binding(aliases[s], u.identity)
    ensures u.checkpointIdentity.Some? && WasShown(u, s) ==> u.checkpointIdentity == Some(u.identity)
    ensures u.checkpointIdentity.None? || !WasShown(u, s) ==>
              HasRow(u, s) && forall m :: IsRowOf(u, m, s) ==> m.identity == Some(u.identity)
  {
    hide Situation.Eligible, Situation.Matches, IsRowOf, HasRow, WasShown, KnownAs;
    var c :| c in calls && s in u.Matches(u.Eligible(calls), c);
    MatchTakesOver(u, calls, c, s);
  }

  // The checkpoint, of this inode, showed every call of the log under one fallback session, and that is the only
  // one that anything lets the log's session take over.
  ghost predicate Continues(u: Situation, calls: seq<Call>, f: Text, e: Text) {
    && calls != [] && f !in u.live && e in u.live && u.checkpointIdentity == Some(u.identity)
    && (forall c :: c in calls ==> c.session == e && c.stable && !(u.source.runtime == HUMAIN_TERMINAL && IsDecimal(c.native)))
    && (forall c :: c in calls ==> exists o :: o in u.history && o.id == CallId(f, c.native))
    && u.cached.Some? && e in u.cached.value && f in u.cached.value[e]
    && (forall t, s :: t in u.cached.value && s in u.cached.value[t] ==> s == f)
    && forall s :: s in u.bindings ==> s == f && u.bindings[s] == Binding(e, u.identity)
  }

  // A log read from the start still shows every call that is known under the fallback, and recorded none yet.
  ghost predicate ShowsAll(u: Situation, calls: seq<Call>, f: Text, e: Text) {
    && !HasRow(u, e)
    && (forall m :: IsRowOf(u, m, f) ==> m.identified && forall id :: id in m.covered ==> IsOneOf(calls, f, id))
    && forall o :: o in u.history && o.id.session == f ==> IsOneOf(calls, f, o.id)
  }

  ghost predicate IsOneOf(calls: seq<Call>, f: Text, id: CallId) {
    exists c :: c in calls && id == CallId(f, c.native)
  }

  // Then the ingest is not refused, the fallback is bound to the log's session, and every call keeps the identity it
  // was shown with.
  lemma ContinuedIsTakenOver(u: Situation, calls: seq<Call>, f: Text, e: Text, aliases: map<Text, Text>, renamed: seq<Call>)
    requires Continues(u, calls, f, e) && (u.resumable || ShowsAll(u, calls, f, e))
    ensures !Refused(u, calls)
    ensures AliasesFit(u, aliases, u.Eligible(calls), calls) && Renamed(u, u.Eligible(calls), calls, renamed) ==>
              && aliases == map[f := e] && |renamed| == |calls|
              && forall i :: 0 <= i < |calls| ==> renamed[i] == calls[i].(session := f, origin := Some(Fallback))
  {
    hide Situation.Eligible, Situation.Matches, Refused, AliasesFit, Renamed, IsDecimal, TakesOver, Claims;
    ContinuedClaims(u, calls, f, e);
    ContinuedIsNotRefused(u, calls, f, e);
    if AliasesFit(u, aliases, u.Eligible(calls), calls) && Renamed(u, u.Eligible(calls), calls, renamed) {
      TakenOverIff(u, calls, aliases, renamed);
      assert calls[0] in calls && f in aliases && aliases[f] == e;
      assert forall s :: s in aliases ==> s == f;
      forall i | 0 <= i < |calls| ensures renamed[i] == calls[i].(session := f, origin := Some(Fallback)) {
        assert calls[i] in calls && TakesOver(u, calls, calls[i], f);
      }
    }
  }

  lemma ContinuedClaims(u: Situation, calls: seq<Call>, f: Text, e: Text)
    requires Continues(u, calls, f, e)
    ensures forall t, s :: MightTake(u, calls, t, s) ==> s == f
    ensures forall c, s :: c in calls && Claims(u, calls, c, s) ==> s == f
    ensures forall c, s :: c in calls && TakesOver(u, calls, c, s) ==> s == f
    ensures forall c :: c in calls ==> TakesOver(u, calls, c, f)
    ensures SameInode(u, f) && !OriginUnknown(u, f)
  {
    hide IsDecimal;
    assert calls[0] in calls;
    var o :| o in u.history && o.id == CallId(f, calls[0].native);
    assert WasShown(u, f);
  }

  lemma ContinuedIsNotRefused(u: Situation, calls: seq<Call>, f: Text, e: Text)
    requires Continues(u, calls, f, e) && (u.resumable || ShowsAll(u, calls, f, e))
    ensures !Refused(u, calls)
  {
    hide Refused, IsDecimal, Claims, MightTake, SameInode, OriginUnknown, TakesOver, IsRowOf, Together, IsOneOf;
    RefusedIff(u, calls);
    ContinuedClaims(u, calls, f, e);
    forall c | c in calls ensures !Doubtful(u, calls, c) {
    }
    if !u.resumable {
      forall c, s | c in calls && Claims(u, calls, c, s) ensures s == f {
      }
      forall a, b | Together(u, f, a, b) ensures Met(u, calls, f, b) {
        TogetherIsMet(u, calls, f, e, a, b);
      }
    }
  }

  lemma TogetherIsMet(u: Situation, calls: seq<Call>, f: Text, e: Text, a: CallId, b: CallId)
    requires Continues(u, calls, f, e) && ShowsAll(u, calls, f, e) && Together(u, f, a, b)
    ensures Met(u, calls, f, b)
  {
    hide IsDecimal;
    assert IsOneOf(calls, f, b) by {
      if !Covers(u, f, b) {
        var model :| Observed(model, b) in u.history && b.session == f;
      }
    }
    var c :| c in calls && b == CallId(f, c.native);
    ContinuedClaims(u, calls, f, e);
    MatchesIff(u, calls, c, f);
  }

  /******* Why a binding is right *******/

  type Shown = set<(Source, Text)>

  // A session that the log gives with this origin, in a call or in the reader's own account.
  function ShownAs(source: Source, calls: seq<Call>, provenance: map<Text, Origin>, origin: Origin): Shown {
    (set c | c in calls && c.origin == Some(origin) :: (source, c.session))
    + (set s | s in provenance && provenance[s] == origin :: (source, s))
  }

  // Both ends were shown for what they are.
  ghost predicate Proven(source: Source, from: Text, to: Text, fallbacks: Shown, explicits: Shown) {
    (source, from) in fallbacks && (source, to) in explicits
  }

  ghost predicate TargetsProven(source: Source, targets: Targets, fallbacks: Shown, explicits: Shown) {
    forall t, s :: t in targets && s in targets[t] ==> Proven(source, s, t, fallbacks, explicits)
  }

  ghost predicate MetricsProven(metrics: seq<Metric>, fallbacks: Shown) {
    forall m :: m in metrics && m.origin == Some(Fallback) ==> (m.source, m.session) in fallbacks
  }

  ghost predicate RowsProven(rows: seq<Promotion>, fallbacks: Shown, explicits: Shown) {
    forall p :: p in rows ==> Proven(p.source, p.from, p.to, fallbacks, explicits)
  }

  ghost predicate CheckpointProven(path: string, cp: Checkpoint, fallbacks: Shown, explicits: Shown) {
    var source := Source(cp.runtime, path);
    && TargetsProven(source, cp.aliases, fallbacks, explicits)
    && (cp.provenance.Some? ==> forall s :: s in cp.provenance.value && cp.provenance.value[s] == Fallback ==> (source, s) in fallbacks)
  }

  // A session that an ingest takes over was shown as a fallback, and the one that takes it over as explicit.
  lemma AliasesAreProven(u: Situation, calls: seq<Call>, aliases: map<Text, Text>, fallbacks: Shown, explicits: Shown)
    requires AliasesOk(u, aliases, u.Eligible(calls), calls) && MetricsProven(u.metrics, fallbacks)
    requires forall s :: s in u.bindings ==> Proven(u.source, s, u.bindings[s].to, fallbacks, explicits)
    requires u.cached.Some? ==> TargetsProven(u.source, u.cached.value, fallbacks, explicits)
    requires forall c :: c in calls && c.origin == Some(Explicit) ==> (u.source, c.session) in explicits
    ensures forall s :: s in aliases ==> Proven(u.source, s, aliases[s], fallbacks, explicits)
    ensures forall s :: s in aliases && s in u.bindings ==> u.bindings[s].to == aliases[s]
  {
    forall s | s in aliases
      ensures Proven(u.source, s, aliases[s], fallbacks, explicits) && (s in u.bindings ==> u.bindings[s].to == aliases[s])
    {
      AliasIsProven(u, calls, s, aliases[s], fallbacks, explicits);
    }
  }

  lemma AliasIsProven(u: Situation, calls: seq<Call>, s: Text, t: Text, fallbacks: Shown, explicits: Shown)
    requires t in u.Eligible(calls) && s in u.Eligible(calls)[t] && !u.Barred(s) && MetricsProven(u.metrics, fallbacks)
    requires s in u.bindings ==> Proven(u.source, s, u.bindings[s].to, fallbacks, explicits)
    requires u.cached.Some? ==> TargetsProven(u.source, u.cached.value, fallbacks, explicits)
    requires forall c :: c in calls && c.origin == Some(Explicit) ==> (u.source, c.session) in explicits
    ensures Proven(u.source, s, t, fallbacks, explicits) && (s in u.bindings ==> u.bindings[s].to == t)
  {
    hide Situation.GenerationOf, Situation.Unknown, Situation.Fallbacks;
    if s !in u.bindings {
      assert t in u.Proposed(calls) && s in u.Proposed(calls)[t];
      if u.cached.None? {
        assert s !in u.Unknown();
        assert IsExplicit(calls, t) && s in u.Fallbacks();
        FallbackIsShown(u, s, fallbacks);
      }
    }
  }

  lemma FallbackIsShown(u: Situation, s: Text, fallbacks: Shown)
    requires s in u.Fallbacks() && MetricsProven(u.metrics, fallbacks)
    ensures (u.source, s) in fallbacks
  {
    assert Some(Fallback) in u.Origins(s);
  }

  /******* The stream of bindings *******/

  // What the checkpoint says about who may be who, for a reader that keeps track of origins.
  function CachedTargets(known: Checkpoint, source: Source, identity: nat, live: set<Text>, provenance: map<Text, Origin>): Option<Targets> {
    if source.runtime == HUMAIN_TERMINAL && known.provenance.Some? then
      var before := known.provenance.value;
      var fallback := if known.identity == identity then set s | s in before && before[s] == Fallback && s !in live else {};
      Some(map t | t in live ::
        AliasesOf(known.aliases, t) + (if t in provenance && provenance[t] == Explicit && t !in before then fallback else {}))
    else None
  }

  function AliasesOf(aliases: Targets, t: Text): set<Text> {
    if t in aliases then aliases[t] else {}
  }

  lemma CachedTargetsProven(known: Checkpoint, source: Source, identity: nat, live: set<Text>, provenance: map<Text, Origin>,
                            fallbacks: Shown, explicits: Shown)
    requires known.runtime == source.runtime && CheckpointProven(source.path, known, fallbacks, explicits)
    requires forall s :: s in provenance && provenance[s] == Explicit ==> (source, s) in explicits
    ensures var cached := CachedTargets(known, source, identity, live, provenance);
            cached.Some? ==> TargetsProven(source, cached.value, fallbacks, explicits)
  {
  }

  // The aliases a checkpoint caches from now on.
  function Merged(aliases: Targets, live: set<Text>, found: map<Text, Text>): Targets {
    map t | t in live :: AliasesOf(aliases, t) + set s | s in found && found[s] == t
  }

  // What the source has shown so far, each id in the first group it was seen in.
  function ObservedAfter(history: set<Observed>, calls: seq<Call>): set<Observed> {
    if calls == [] then history
    else
      var before, c := ObservedAfter(history, calls[..|calls| - 1]), calls[|calls| - 1];
      var id := CallId(c.session, c.native);
      if exists o :: o in before && o.id == id then before else before + {Observed(c.model, id)}
  }

  ghost predicate IsBound(rows: seq<Promotion>, source: Source, from: Text, to: Text) {
    exists p :: p in rows && p.source == source && p.from == from && p.to == to
  }

  // What binding the aliases needs: each was shown for what it is, and is bound to its target or not at all.
  ghost predicate Bindable(rows: seq<Promotion>, source: Source, aliases: map<Text, Text>, bindings: map<Text, Binding>, calls: seq<Call>,
                           fallbacks: Shown, explicits: Shown) {
    forall s :: s in aliases ==>
      && s != aliases[s] && aliases[s] in SessionsOf(calls) && Proven(source, s, aliases[s], fallbacks, explicits)
      && (if s in bindings then IsBound(rows, source, s, aliases[s]) else forall p :: p in rows && p.source == source ==> p.from != s)
  }

  lemma AliasesAreBindable(u: Situation, rows: seq<Promotion>, calls: seq<Call>, aliases: map<Text, Text>, fallbacks: Shown, explicits: Shown)
    requires AliasesOk(u, aliases, u.Eligible(calls), calls) && SessionsOf(calls) <= u.live
    requires Bindings(rows, u.source) == Some(u.bindings) && RowsProven(rows, fallbacks, explicits) && MetricsProven(u.metrics, fallbacks)
    requires u.cached.Some? ==> TargetsProven(u.source, u.cached.value, fallbacks, explicits)
    requires forall c :: c in calls && c.origin == Some(Explicit) ==> (u.source, c.session) in explicits
    ensures Bindable(rows, u.source, aliases, u.bindings, calls, fallbacks, explicits)
  {
    hide Bindings, Situation.Eligible, TargetsProven, SessionsOf, MetricsProven;
    forall s | s in u.bindings
      ensures Proven(u.source, s, u.bindings[s].to, fallbacks, explicits) && IsBound(rows, u.source, s, u.bindings[s].to)
    {
      BoundByARow(rows, u.source, s);
    }
    AliasesAreProven(u, calls, aliases, fallbacks, explicits);
    forall s | s in aliases && s !in u.bindings
      ensures forall p :: p in rows && p.source == u.source ==> p.from != s
    {
      forall p | p in rows && p.source == u.source ensures p.from != s {
        RowsAgree(rows, u.source, p);
      }
    }
  }

  // What a call is recorded as was shown for what it is.
  lemma RenamedProven(u: Situation, calls: seq<Call>, renamed: seq<Call>, aliases: map<Text, Text>, provenance: map<Text, Origin>,
                      fallbacks: Shown, explicits: Shown)
    requires AliasesFit(u, aliases, u.Eligible(calls), calls) && Renamed(u, u.Eligible(calls), calls, renamed)
    requires forall s :: s in aliases ==> Proven(u.source, s, aliases[s], fallbacks, explicits)
    requires ShownAs(u.source, calls, provenance, Fallback) <= fallbacks
    ensures forall c :: c in renamed && c.origin == Some(Fallback) ==> (u.source, c.session) in fallbacks
  {
    hide Situation.Eligible, Situation.Matches;
    var targets := u.Eligible(calls);
    forall c | c in renamed && c.origin == Some(Fallback) ensures (u.source, c.session) in fallbacks {
      var i :| 0 <= i < |renamed| && renamed[i] == c;
      assert RenamedAs(u, targets, calls[i], c) && calls[i] in calls;
      if u.Matches(targets, calls[i]) == {} {
        assert (u.source, c.session) in ShownAs(u.source, calls, provenance, Fallback);
      } else {
        assert c.session in aliases;
      }
    }
  }

  lemma SavedIsProven(source: Source, known: Option<Checkpoint>, saved: Checkpoint, calls: seq<Call>, provenance: map<Text, Origin>,
                      aliases: map<Text, Text>, fallbacks: Shown, explicits: Shown)
    requires known.Some? ==> known.value.runtime == source.runtime && CheckpointProven(source.path, known.value, fallbacks, explicits)
    requires saved.runtime == source.runtime && (saved.provenance.Some? ==> saved.provenance.value == provenance)
    requires saved.aliases == Merged(if known.Some? then known.value.aliases else map[], saved.live, aliases)
    requires ShownAs(source, calls, provenance, Fallback) <= fallbacks
    requires forall s :: s in aliases ==> Proven(source, s, aliases[s], fallbacks, explicits)
    ensures CheckpointProven(source.path, saved, fallbacks, explicits)
  {
    hide Proven;
    forall s | s in provenance && provenance[s] == Fallback ensures (source, s) in fallbacks {
      assert (source, s) in ShownAs(source, calls, provenance, Fallback);
    }
  }

  // The id is covered by a row of the session, from whatever source.
  predicate IsRecorded(metrics: seq<Metric>, runtime: string, c: Call) {
    exists m :: m in metrics && m.source.runtime == runtime && m.session == c.session && CallId(c.session, c.native) in m.covered
  }

  // Each row that was added records, under the present inode, one of the calls that no row recorded yet.
  ghost predicate Recording(before: seq<Metric>, after: seq<Metric>, source: Source, identity: nat, calls: seq<Call>) {
    && before <= after
    && forall i :: |before| <= i < |after| ==> RecordsNew(after[..i], after[i], source, identity, calls)
  }

  ghost predicate RecordsNew(metrics: seq<Metric>, m: Metric, source: Source, identity: nat, calls: seq<Call>) {
    exists c :: c in calls && m == Metric(source, c.session, c.origin, Some(identity), true, true, {CallId(c.session, c.native)})
                && !CoveredBy(metrics, source.runtime, CallId(c.session, c.native))
  }

  // Some row of the runtime covers this call of this session.
  ghost predicate CoveredBy(metrics: seq<Metric>, runtime: string, id: CallId) {
    exists i :: 0 <= i < |metrics| && metrics[i].source.runtime == runtime && metrics[i].session == id.session && id in metrics[i].covered
  }

  lemma RecordedIffCovered(metrics: seq<Metric>, runtime: string, c: Call)
    ensures IsRecorded(metrics, runtime, c) <==> CoveredBy(metrics, runtime, CallId(c.session, c.native))
  {
    if IsRecorded(metrics, runtime, c) {
      var m :| m in metrics && m.source.runtime == runtime && m.session == c.session && CallId(c.session, c.native) in m.covered;
      var i :| 0 <= i < |metrics| && metrics[i] == m;
    }
  }

  lemma NothingRecorded(metrics: seq<Metric>, source: Source, identity: nat, calls: seq<Call>)
    ensures Recording(metrics, metrics, source, identity, calls)
  {
  }

  lemma RecordingGrows(before: seq<Metric>, after: seq<Metric>, source: Source, identity: nat, calls: seq<Call>)
    requires Recording(before, after, source, identity, calls)
    ensures before <= after
  {
  }

  lemma OneMoreRecorded(before: seq<Metric>, metrics: seq<Metric>, source: Source, identity: nat, calls: seq<Call>, c: Call)
    requires Recording(before, metrics, source, identity, calls) && c in calls && !IsRecorded(metrics, source.runtime, c)
    ensures var m := Metric(source, c.session, c.origin, Some(identity), true, true, {CallId(c.session, c.native)});
            Recording(before, metrics + [m], source, identity, calls)
  {
    hide IsRecorded, CoveredBy;
    RecordedIffCovered(metrics, source.runtime, c);
    var m := Metric(source, c.session, c.origin, Some(identity), true, true, {CallId(c.session, c.native)});
    var after := metrics + [m];
    forall i | |before| <= i < |after| ensures RecordsNew(after[..i], after[i], source, identity, calls) {
      if i < |metrics| {
        assert after[..i] == metrics[..i];
      } else {
        assert after[..i] == metrics;
      }
    }
  }

  // What the checkpoint keeps: the present inode and sessions, every call it or an earlier one has seen, in the
  // group it was first seen in, and the aliases of the sessions that are still there, with those just found.
  ghost predicate SavedAs(u: Situation, known: Option<Checkpoint>, saved: Checkpoint, renamed: seq<Call>, aliases: map<Text, Text>,
                          provenance: map<Text, Origin>) {
    && saved.runtime == u.source.runtime && saved.identity == u.identity && saved.live == u.live
    && saved.provenance == (if u.source.runtime == HUMAIN_TERMINAL then Some(provenance) else None)
    && Remembers(u.history, saved.history, renamed)
    && saved.aliases.Keys == u.live
    && forall t, s :: t in u.live ==>
         (s in saved.aliases[t] <==>
            (known.Some? && t in known.value.aliases && s in known.value.aliases[t]) || (s in aliases && aliases[s] == t))
  }

  ghost predicate Remembers(before: set<Observed>, after: set<Observed>, calls: seq<Call>) {
    && before <= after
    && (forall c :: c in calls ==> WasObserved(after, CallId(c.session, c.native)))
    && forall o :: o in after && o !in before ==>
         !WasObserved(before, o.id) && exists c :: c in calls && o == Observed(c.model, CallId(c.session, c.native))
  }

  ghost predicate WasObserved(history: set<Observed>, id: CallId) {
    exists o :: o in history && o.id == id
  }

  lemma {:induction false} ObservedAfterRemembers(history: set<Observed>, calls: seq<Call>)
    ensures Remembers(history, ObservedAfter(history, calls), calls)
  {
    if calls != [] {
      var init, c := calls[..|calls| - 1], calls[|calls| - 1];
      var before, after := ObservedAfter(history, init), ObservedAfter(history, calls);
      ObservedAfterRemembers(history, init);
      assert before <= after;
      forall d | d in calls ensures WasObserved(after, CallId(d.session, d.native)) {
        if d in init {
          var o :| o in before && o.id == CallId(d.session, d.native);
          assert o in after;
        } else {
          assert d == c;
          if !WasObserved(before, CallId(c.session, c.native)) {
            assert Observed(c.model, CallId(c.session, c.native)) in after;
          }
        }
      }
      forall o | o in after && o !in history
        ensures !WasObserved(history, o.id) && exists d :: d in calls && o == Observed(d.model, CallId(d.session, d.native))
      {
        if o !in before {
          assert c in calls && o == Observed(c.model, CallId(c.session, c.native));
          assert !WasObserved(before, o.id);
        }
      }
    }
  }

  lemma SavedIs(u: Situation, known: Option<Checkpoint>, saved: Checkpoint, renamed: seq<Call>, aliases: map<Text, Text>,
                provenance: map<Text, Origin>)
    requires saved == Checkpoint(u.source.runtime, u.identity, if u.source.runtime == HUMAIN_TERMINAL then Some(provenance) else None,
                                 ObservedAfter(u.history, renamed), u.live,
                                 Merged(if known.Some? then known.value.aliases else map[], u.live, aliases))
    ensures SavedAs(u, known, saved, renamed, aliases, provenance)
  {
    hide ObservedAfter, Remembers;
    ObservedAfterRemembers(u.history, renamed);
  }

  datatype Outcome = Rejected | Killed | Done

  class PromotionLog {
    var rows: seq<Promotion>
    var metrics: seq<Metric>
    var checkpoints: map<string, Checkpoint>

    // Every session that a read, or a recorded row, has shown as a fallback or as explicit.
    ghost var fallbacks: Shown
    ghost var explicits: Shown

    constructor ()
      ensures Valid() && rows == [] && metrics == [] && checkpoints == map[] && fallbacks == {} && explicits == {}
    {
      rows, metrics, checkpoints, fallbacks, explicits := [], [], map[], {}, {};
    }

    // The bindings are a function, and each one's ends were shown for what they are.
    ghost predicate Valid()
      reads this
    {
      && Agree(rows) && RowsProven(rows, fallbacks, explicits) && MetricsProven(metrics, fallbacks)
      && forall path :: path in checkpoints ==> CheckpointProven(path, checkpoints[path], fallbacks, explicits)
    }

    // `events.jsonl` is rolled back.
    method RollBack(n: nat)
      requires Valid() && n <= |rows|
      modifies this`rows
      ensures Valid() && rows == old(rows)[..n]
    {
      hide CheckpointProven, MetricsProven, Proven;
      rows := rows[..n];
    }

    // Rows are added to or taken from `metrics.jsonl` by anything else.
    method ChangeMetrics(now: seq<Metric>)
      requires Valid()
      modifies this`metrics, this`fallbacks, this`explicits
      ensures Valid() && metrics == now && explicits == old(explicits)
      ensures fallbacks == old(fallbacks) + set m | m in now && m.origin == Some(Fallback) :: (m.source, m.session)
    {
      ghost var more: Shown := set m | m in now && m.origin == Some(Fallback) :: (m.source, m.session);
      ShowMore(more, {});
      metrics := now;
    }

    method LoseCheckpoint(path: string)
      requires Valid()
      modifies this`checkpoints
      ensures Valid() && checkpoints == old(checkpoints) - {path}
    {
      hide CheckpointProven, MetricsProven, RowsProven, Agree;
      checkpoints := checkpoints - {path};
    }

    // What has been shown stays shown.
    ghost method ShowMore(more: Shown, others: Shown)
      requires Valid()
      modifies this`fallbacks, this`explicits
      ensures Valid() && fallbacks == old(fallbacks) + more && explicits == old(explicits) + others
    {
      hide Agree;
      forall path | path in checkpoints
        ensures CheckpointProven(path, checkpoints[path], fallbacks + more, explicits + others)
      {
        assert CheckpointProven(path, checkpoints[path], fallbacks, explicits);
      }
      fallbacks, explicits := fallbacks + more, explicits + others;
    }

    function Known(source: Source): Option<Checkpoint>
      reads this`checkpoints
    {
      if source.path in checkpoints && checkpoints[source.path].runtime == source.runtime then Some(checkpoints[source.path]) else None
    }

    // What an ingest has before it: the log as it was read, from the start or from the checkpoint on.
    function Situate(source: Source, identity: nat, calls: seq<Call>, provenance: map<Text, Origin>, resumed: bool): Situation
      reads this`rows, this`metrics, this`checkpoints
    {
      var known := Known(source);
      var live := SessionsOf(calls) + (if known.Some? && resumed then known.value.live else {});
      Situation(source, identity, live, known.Some? && resumed, metrics,
                if known.Some? then known.value.history else {},
                if Bindings(rows, source).Some? then Bindings(rows, source).value else map[],
                if known.Some? then CachedTargets(known.value, source, identity, live, provenance) else None,
                if known.Some? then Some(known.value.identity) else None)
    }

    // One ingest: bind each matched session that is not bound yet, then record the calls that are not, then
    // checkpoint. The process may be killed after any of the rows.
    method Ingest(source: Source, identity: nat, calls: seq<Call>, provenance: map<Text, Origin>, resumed: bool)
      returns (outcome: Outcome, aliases: map<Text, Text>, renamed: seq<Call>)
      requires Valid()
      modifies this
      ensures Valid() && old(rows) <= rows && old(metrics) <= metrics
      ensures fallbacks == old(fallbacks) + ShownAs(source, calls, provenance, Fallback)
      ensures explicits == old(explicits) + ShownAs(source, calls, provenance, Explicit)
      ensures forall p :: p in rows[|old(rows)|..] ==> p.from in aliases && p == PromotionRecord(source, identity, p.from, aliases[p.from])
      ensures outcome == Rejected <==>
                calls != [] && (Bindings(old(rows), source).None? || Refused(old(Situate(source, identity, calls, provenance, resumed)), calls))
      ensures outcome == Rejected ==> rows == old(rows) && metrics == old(metrics)
      ensures outcome != Rejected ==>
                var u := old(Situate(source, identity, calls, provenance, resumed));
                AliasesOk(u, aliases, u.Eligible(calls), calls) && AliasesFit(u, aliases, u.Eligible(calls), calls)
                && Renamed(u, u.Eligible(calls), calls, renamed) && Recording(old(metrics), metrics, source, identity, renamed)
      ensures outcome != Done ==> checkpoints == old(checkpoints)
      ensures outcome == Done ==>
                && (forall s :: s in aliases ==> IsBound(rows, source, s, aliases[s]))
                && (forall c :: c in renamed ==> CoveredBy(metrics, source.runtime, CallId(c.session, c.native)))
                && source.path in checkpoints && checkpoints == old(checkpoints)[source.path := checkpoints[source.path]]
                && SavedAs(old(Situate(source, identity, calls, provenance, resumed)), old(Known(source)), checkpoints[source.path], renamed,
                           aliases, provenance)
    {
      hide CheckpointProven, MetricsProven, RowsProven, Agree, Bindings, Situation.Eligible, AliasesOk, AliasesFit, SessionsOf, Refused,
        CachedTargets, ShownAs, Merged, ObservedAfter, Renamed, TargetsProven, Recording, SavedAs, CoveredBy;
      aliases, renamed := map[], [];
      ShowMore(ShownAs(source, calls, provenance, Fallback), ShownAs(source, calls, provenance, Explicit));
      var bindings := SourcePromotions(rows, source);
      if calls != [] && bindings.None? {
        return Rejected, map[], [];
      }
      var u := Situate(source, identity, calls, provenance, resumed);
      var found, recorded := Reconcile(u, calls);
      if found.None? {
        return Rejected, map[], [];
      }
      aliases, renamed := found.value, recorded;
      SituationProven(source, identity, calls, provenance, resumed, aliases);
      RenamedProven(u, calls, renamed, aliases, provenance, fallbacks, explicits);
      outcome := Carry(source, identity, u, calls, provenance, aliases, renamed);
      RecordingGrows(old(metrics), metrics, source, identity, renamed);
    }

    // Carry out what was decided.
    method Carry(source: Source, identity: nat, u: Situation, calls: seq<Call>, provenance: map<Text, Origin>, aliases: map<Text, Text>,
                 renamed: seq<Call>) returns (outcome: Outcome)
      requires Valid() && u.source == source && u.identity == identity
      requires Bindable(rows, source, aliases, u.bindings, calls, fallbacks, explicits) && ShownAs(source, calls, provenance, Fallback) <= fallbacks
      requires forall c :: c in renamed && c.origin == Some(Fallback) ==> (source, c.session) in fallbacks
      requires u.history == (if Known(source).Some? then Known(source).value.history else {})
      modifies this`rows, this`metrics, this`checkpoints
      ensures Valid() && outcome != Rejected && old(rows) <= rows && Recording(old(metrics), metrics, source, identity, renamed)
      ensures forall p :: p in rows[|old(rows)|..] ==> p.from in aliases && p == PromotionRecord(source, identity, p.from, aliases[p.from])
      ensures outcome != Done ==> checkpoints == old(checkpoints)
      ensures outcome == Done ==>
                && (forall s :: s in aliases ==> IsBound(rows, source, s, aliases[s]))
                && (forall c :: c in renamed ==> CoveredBy(metrics, source.runtime, CallId(c.session, c.native)))
                && source.path in checkpoints && checkpoints == old(checkpoints)[source.path := checkpoints[source.path]]
                && SavedAs(u, old(Known(source)), checkpoints[source.path], renamed, aliases, provenance)
    {
      hide CheckpointProven, MetricsProven, RowsProven, Agree, SessionsOf, ShownAs, Merged, ObservedAfter, Recording, SavedAs, CoveredBy;
      NothingRecorded(metrics, source, identity, renamed);
      assert forall s :: s in aliases ==> Proven(source, s, aliases[s], fallbacks, explicits);
      var bound := BindAll(source, identity, aliases, u.bindings, calls);
      if !bound {
        return Killed;
      }
      var done := RecordAll(source, identity, renamed);
      if !done {
        return Killed;
      }
      if * {
        return Killed;
      }
      var known := Known(source);
      var saved := Checkpoint(source.runtime, identity, if source.runtime == HUMAIN_TERMINAL then Some(provenance) else None,
                              ObservedAfter(u.history, renamed), u.live,
                              Merged(if known.Some? then known.value.aliases else map[], u.live, aliases));
      SavedIsProven(source, known, saved, calls, provenance, aliases, fallbacks, explicits);
      SavedIs(u, known, saved, renamed, aliases, provenance);
      checkpoints := checkpoints[source.path := saved];
      outcome := Done;
    }

    lemma SituationProven(source: Source, identity: nat, calls: seq<Call>, provenance: map<Text, Origin>, resumed: bool, aliases: map<Text, Text>)
      requires Valid() && (calls != [] ==> Bindings(rows, source).Some?)
      requires ShownAs(source, calls, provenance, Explicit) <= explicits
      requires var u := Situate(source, identity, calls, provenance, resumed); AliasesOk(u, aliases, u.Eligible(calls), calls)
      ensures Bindable(rows, source, aliases, Situate(source, identity, calls, provenance, resumed).bindings, calls, fallbacks, explicits)
    {
      hide Bindings, Situation.Eligible, TargetsProven, CachedTargets;
      var u := Situate(source, identity, calls, provenance, resumed);
      if calls == [] {
        assert aliases == map[];
      } else {
        forall c | c in calls && c.origin == Some(Explicit) ensures (source, c.session) in explicits {
          assert (source, c.session) in ShownAs(source, calls, provenance, Explicit);
        }
        forall s | s in provenance && provenance[s] == Explicit ensures (source, s) in explicits {
          assert (source, s) in ShownAs(source, calls, provenance, Explicit);
        }
        if Known(source).Some? {
          CachedTargetsProven(Known(source).value, source, identity, u.live, provenance, fallbacks, explicits);
        }
        AliasesAreBindable(u, rows, calls, aliases, fallbacks, explicits);
      }
    }

    // The bindings that are not durable yet, in any order, through the writer, which skips an id it already has.
    method BindAll(source: Source, identity: nat, aliases: map<Text, Text>, bindings: map<Text, Binding>, ghost calls: seq<Call>)
      returns (done: bool)
      requires Valid() && Bindable(rows, source, aliases, bindings, calls, fallbacks, explicits)
      modifies this`rows
      ensures Valid() && old(rows) <= rows
      ensures forall p :: p in rows[|old(rows)|..] ==> p.from in aliases && p == PromotionRecord(source, identity, p.from, aliases[p.from])
      ensures done ==> forall s :: s in aliases ==> IsBound(rows, source, s, aliases[s])
    {
      hide CheckpointProven, MetricsProven, Proven, SessionsOf, Agree;
      var left := aliases.Keys - bindings.Keys;
      while left != {}
        invariant left <= aliases.Keys - bindings.Keys && Valid() && old(rows) <= rows
        invariant forall s, p :: s in left && p in rows && p.source == source ==> p.from != s
        invariant forall s :: s in aliases && s !in left ==> IsBound(rows, source, s, aliases[s])
        invariant forall p :: p in rows[|old(rows)|..] ==> p.from in aliases && p == PromotionRecord(source, identity, p.from, aliases[p.from])
      {
        if * {
          return false;
        }
        var s :| s in left;
        left := left - {s};
        var p := PromotionRecord(source, identity, s, aliases[s]);
        NotYetWritten(rows, p);
        if forall q :: q in rows ==> q.recordId != p.recordId {
          OneMoreRow(rows, p);
          rows := rows + [p];
        }
      }
      done := true;
    }

    // The calls that no row covers yet, in log order.
    method RecordAll(source: Source, identity: nat, calls: seq<Call>) returns (done: bool)
      requires Valid() && forall c :: c in calls && c.origin == Some(Fallback) ==> (source, c.session) in fallbacks
      modifies this`metrics
      ensures Valid() && Recording(old(metrics), metrics, source, identity, calls)
      ensures done ==> forall c :: c in calls ==> CoveredBy(metrics, source.runtime, CallId(c.session, c.native))
    {
      hide CheckpointProven, RowsProven, Agree, IsRecorded, CoveredBy, Recording;
      var i := 0;
      NothingRecorded(metrics, source, identity, calls);
      while i < |calls|
        invariant 0 <= i <= |calls| && Valid() && Recording(old(metrics), metrics, source, identity, calls)
        invariant forall c :: c in calls[..i] ==> IsRecorded(metrics, source.runtime, c)
      {
        if * {
          return false;
        }
        var c := calls[i];
        assert calls[..i + 1] == calls[..i] + [c] && c in calls;
        if !IsRecorded(metrics, source.runtime, c) {
          var m := Metric(source, c.session, c.origin, Some(identity), true, true, {CallId(c.session, c.native)});
          StaysRecorded(metrics, m, source.runtime, c);
          OneMoreRecorded(old(metrics), metrics, source, identity, calls, c);
          metrics := metrics + [m];
        }
        i := i + 1;
      }
      assert calls[..i] == calls;
      forall c | c in calls ensures CoveredBy(metrics, source.runtime, CallId(c.session, c.native)) {
        RecordedIffCovered(metrics, source.runtime, c);
      }
      done := true;
    }
  }

  lemma NotYetWritten(rows: seq<Promotion>, p: Promotion)
    requires Agree(rows) && p == PromotionRecord(p.source, p.identity, p.from, p.to)
    requires forall q :: q in rows && q.source == p.source ==> q.from != p.from
    ensures forall q :: q in rows ==> q.recordId != p.recordId
  {
  }

  lemma OneMoreRow(rows: seq<Promotion>, p: Promotion)
    requires Agree(rows) && p == PromotionRecord(p.source, p.identity, p.from, p.to) && p.from != p.to
    requires forall q :: q in rows && q.source == p.source ==> q.from != p.from
    ensures Agree(rows + [p])
  {
  }

  lemma StaysRecorded(metrics: seq<Metric>, m: Metric, runtime: string, c: Call)
    requires m.source.runtime == runtime && m.session == c.session && m.covered == {CallId(c.session, c.native)}
    ensures IsRecorded(metrics + [m], runtime, c)
    ensures forall d :: IsRecorded(metrics, runtime, d) ==> IsRecorded(metrics + [m], runtime, d)
  {
    assert m in metrics + [m];
    forall d | IsRecorded(metrics, runtime, d) ensures IsRecorded(metrics + [m], runtime, d) {
      var n :| n in metrics && n.source.runtime == runtime && n.session == d.session && CallId(d.session, d.native) in n.covered;
      assert n in metrics + [m];
    }
  }

  /******* Over all runs *******/

  // At every moment: each session of a source is bound to one other session, it was shown as a fallback and the
  // other as explicit; and ingest reads back what it wrote, if and only if it bound no blank session.
  lemma BindingsAreRight(log: PromotionLog, source: Source)
    requires log.Valid()
    ensures forall p, q :: p in log.rows && q in log.rows && p.source == q.source && p.from == q.from ==> p == q
    ensures forall p :: p in log.rows ==>
              p.from != p.to && (p.source, p.from) in log.fallbacks && (p.source, p.to) in log.explicits
    ensures Bindings(log.rows, source).Some? <==> NoBlanks(log.rows, source)
    ensures (forall s :: (source, s) in log.fallbacks + log.explicits ==> !IsBlank(s)) ==> Bindings(log.rows, source).Some?
  {
    hide Bindings, IsBlank, MetricsProven, CheckpointProven;
    ReadableIff(log.rows, source);
  }

  /******* A header that comes after the calls *******/

  // The calls of a log without a header, and the same log once it has one.
  predicate Headerless(calls: seq<Call>, f: Text) {
    calls != [] && forall c :: c in calls ==> c.session == f && c.origin == Some(Fallback) && c.stable && !IsDecimal(c.native)
  }

  function Headed(calls: seq<Call>, e: Text): (r: seq<Call>)
    ensures |r| == |calls|
  {
    seq(|calls|, i requires 0 <= i < |calls| => calls[i].(session := e, origin := Some(Explicit)))
  }

  // A log is ingested under the name of its file; then its header appears and it is read again from the start. In
  // the same file the fallback session is bound to the header's, the calls keep their identity, and not one is
  // recorded again. In another file at the same path nothing is taken over, and every call is recorded as its own.
  method HeaderAppears(source: Source, first: nat, second: nat, calls: seq<Call>, f: Text, e: Text)
    returns (log: PromotionLog, begun: Outcome, outcome: Outcome, aliases: map<Text, Text>, ghost paid: seq<Metric>)
    requires source.runtime == HUMAIN_TERMINAL && f != e && Headerless(calls, f)
    ensures log.Valid() && begun != Rejected && outcome != Rejected
    ensures begun == Done ==> forall c :: c in calls ==> CoveredBy(paid, source.runtime, CallId(c.session, c.native))
    ensures begun == Done && first == second ==> aliases == map[f := e] && log.metrics == paid
    ensures begun == Done && first == second && outcome == Done ==> IsBound(log.rows, source, f, e)
    ensures begun == Done && first != second ==> aliases == map[] && paid <= log.metrics
    ensures begun == Done && first != second && outcome == Done ==>
              forall c :: c in calls ==> CoveredBy(log.metrics, source.runtime, CallId(e, c.native))
  {
    hide AliasesOk, AliasesFit, Renamed, Refused, Recording, SavedAs, CheckpointProven, MetricsProven, RowsProven, Proven, ShownAs,
      CachedTargets, SessionsOf, Bindings, CoveredBy, IsDecimal, Situation.Eligible, Situation.Matches, Headed, Agree, Continues, ShowsAll;
    log := new PromotionLog();
    NothingBound(source);
    ghost var u := log.Situate(source, first, calls, map[f := Fallback], false);
    var renamed;
    begun, aliases, renamed := log.Ingest(source, first, calls, map[f := Fallback], false);
    FirstTakesNothing(u, calls, aliases, renamed);
    SessionsOfHeaded(calls, f, e);
    paid := log.metrics;
    outcome := begun;
    if begun == Done {
      var headed := Headed(calls, e);
      assert log.rows[0..] == log.rows && forall p :: p !in log.rows;
      FirstIsIn(log.rows);
      assert log.rows == [];
      FirstSaved(u, log.checkpoints[source.path], calls, f);
      u := log.Situate(source, second, headed, map[e := Explicit], false);
      Reread(u, source, first, calls, f, e, log.checkpoints[source.path], paid);
      outcome, aliases, renamed := log.Ingest(source, second, headed, map[e := Explicit], false);
      if first == second {
        ContinuedIsTakenOver(u, headed, f, e, aliases, renamed);
        assert f in aliases && aliases[f] == e;
        SameAgain(calls, f, e, renamed);
        AllRecorded(paid, log.metrics, source, second, calls);
      } else {
        NothingTaken(u, headed, aliases, renamed);
        RecordingGrows(paid, log.metrics, source, second, renamed);
        HeadedAll(calls, f, e);
      }
    }
  }

  // Nothing can be claimed, so nothing is refused or taken over.
  lemma NothingTaken(u: Situation, calls: seq<Call>, aliases: map<Text, Text>, renamed: seq<Call>)
    requires forall c, s :: c in calls ==> !Claims(u, calls, c, s)
    requires u.resumable || ((forall c :: c in calls ==> !HasRow(u, c.session)) && !TotalsAtStake(u, calls))
    ensures !Refused(u, calls)
    ensures AliasesFit(u, aliases, u.Eligible(calls), calls) ==> aliases == map[]
    ensures Renamed(u, u.Eligible(calls), calls, renamed) ==> renamed == calls
  {
    hide Refused, Claims, TotalsAtStake, HasRow, Situation.Eligible, Situation.Matches, Situation.Barred, TakesOver, OriginUnknown, SameInode;
    RefusedIff(u, calls);
    forall c, s | c in calls ensures s !in u.Matches(u.Eligible(calls), c) {
      MatchesIff(u, calls, c, s);
    }
    if Renamed(u, u.Eligible(calls), calls, renamed) {
      forall i | 0 <= i < |calls| ensures renamed[i] == calls[i] {
        assert calls[i] in calls && u.Matches(u.Eligible(calls), calls[i]) == {};
        assert RenamedAs(u, u.Eligible(calls), calls[i], renamed[i]);
      }
    }
  }

  lemma FirstTakesNothing(u: Situation, calls: seq<Call>, aliases: map<Text, Text>, renamed: seq<Call>)
    requires u.metrics == [] && u.history == {} && !u.resumable
    ensures !Refused(u, calls)
    ensures AliasesFit(u, aliases, u.Eligible(calls), calls) ==> aliases == map[]
    ensures Renamed(u, u.Eligible(calls), calls, renamed) ==> renamed == calls
  {
    hide Refused, AliasesFit, Renamed, Situation.Eligible, MightTake;
    NothingTaken(u, calls, aliases, renamed);
  }

  lemma FirstIsIn(rows: seq<Promotion>)
    ensures rows == [] || rows[0] in rows
  {
  }

  lemma FirstSaved(u: Situation, saved: Checkpoint, calls: seq<Call>, f: Text)
    requires u.source.runtime == HUMAIN_TERMINAL && u.live == {f} && u.history == {}
    requires SavedAs(u, None, saved, calls, map[], map[f := Fallback])
    ensures saved.runtime == u.source.runtime && saved.identity == u.identity && saved.provenance == Some(map[f := Fallback])
    ensures saved.aliases == map[f := {}] && Remembers({}, saved.history, calls)
  {
    hide Remembers;
    assert saved.aliases.Keys == {f} && f in u.live;
    var none: map<Text, Text> := map[];
    assert forall s :: s in saved.aliases[f] ==> s in none;
    assert saved.aliases[f] == {};
  }

  lemma SessionsOfHeaded(calls: seq<Call>, f: Text, e: Text)
    requires Headerless(calls, f)
    ensures SessionsOf(calls) == {f} && SessionsOf(Headed(calls, e)) == {e}
  {
    hide IsDecimal, Headed;
    HeadedAre(calls, f, e);
    assert calls[0] in calls && Headed(calls, e)[0] in Headed(calls, e);
  }

  // What the second read finds.
  lemma Reread(u: Situation, source: Source, first: nat, calls: seq<Call>, f: Text, e: Text, cp: Checkpoint, paid: seq<Metric>)
    requires source.runtime == HUMAIN_TERMINAL && f != e && Headerless(calls, f) && Recording([], paid, source, first, calls)
    requires cp.runtime == source.runtime && cp.identity == first && cp.provenance == Some(map[f := Fallback]) && cp.aliases == map[f := {}]
    requires Remembers({}, cp.history, calls)
    requires u == Situation(source, u.identity, {e}, false, paid, cp.history, map[], u.cached, Some(first))
    requires u.cached == CachedTargets(cp, source, u.identity, {e}, map[e := Explicit])
    ensures u.identity == first ==> Continues(u, Headed(calls, e), f, e) && ShowsAll(u, Headed(calls, e), f, e)
    ensures u.identity != first ==>
              && (forall c, s :: c in Headed(calls, e) ==> !Claims(u, Headed(calls, e), c, s))
              && (forall c :: c in Headed(calls, e) ==> !HasRow(u, c.session)) && !TotalsAtStake(u, Headed(calls, e))
  {
    hide CachedTargets, Recording, Remembers, IsDecimal, Headed, Claims, MightTake, TotalsAtStake, Headerless, Continues, ShowsAll;
    var headed := Headed(calls, e);
    CachedIs(cp, source, first, u.identity, f, e);
    RecordedUnder(paid, source, first, calls, f);
    RememberedUnder(cp.history, calls, f);
    HeadedAre(calls, f, e);
    assert !HasRow(u, e);
    if u.identity == first {
      HeadedContinues(u, calls, f, e);
    } else {
      forall t, s ensures !MightTake(u, headed, t, s) {
        NothingCached(u, headed, t, s, e);
      }
      NoStake(u, headed);
    }
  }

  lemma NoStake(u: Situation, calls: seq<Call>)
    requires forall t, s :: !MightTake(u, calls, t, s)
    ensures !TotalsAtStake(u, calls) && forall c, s :: !Claims(u, calls, c, s)
  {
    hide MightTake;
  }

  lemma NothingCached(u: Situation, calls: seq<Call>, t: Text, s: Text, e: Text)
    requires u.bindings == map[] && u.cached == Some(map[e := {}])
    ensures !MightTake(u, calls, t, s)
  {
  }

  lemma CachedIs(cp: Checkpoint, source: Source, first: nat, second: nat, f: Text, e: Text)
    requires source.runtime == HUMAIN_TERMINAL && f != e
    requires cp.identity == first && cp.provenance == Some(map[f := Fallback]) && cp.aliases == map[f := {}]
    ensures CachedTargets(cp, source, second, {e}, map[e := Explicit]) == Some(map[e := if first == second then {f} else {}])
  {
    var before, cached := map[f := Fallback], CachedTargets(cp, source, second, {e}, map[e := Explicit]).value;
    assert (set s | s in before && before[s] == Fallback && s !in {e}) == {f};
    var fallback := if first == second then {f} else {};
    assert cached.Keys == {e} && cached[e] == fallback;
    assert cached == map[e := fallback];
  }

  lemma RecordedUnder(paid: seq<Metric>, source: Source, first: nat, calls: seq<Call>, f: Text)
    requires Headerless(calls, f) && Recording([], paid, source, first, calls)
    ensures forall m :: m in paid ==> m.session == f && m.identified && forall id :: id in m.covered ==> IsOneOf(calls, f, id)
  {
    hide IsRecorded, IsDecimal;
    forall m | m in paid ensures m.session == f && m.identified && forall id :: id in m.covered ==> IsOneOf(calls, f, id) {
      var i :| 0 <= i < |paid| && paid[i] == m;
      assert RecordsNew(paid[..i], paid[i], source, first, calls);
    }
  }

  lemma RememberedUnder(history: set<Observed>, calls: seq<Call>, f: Text)
    requires Headerless(calls, f) && Remembers({}, history, calls)
    ensures forall o :: o in history ==> IsOneOf(calls, f, o.id)
    ensures forall c :: c in calls ==> exists o :: o in history && o.id == CallId(f, c.native)
  {
    hide IsDecimal;
    forall c | c in calls ensures exists o :: o in history && o.id == CallId(f, c.native) {
      assert WasObserved(history, CallId(c.session, c.native));
    }
  }

  lemma HeadedAre(calls: seq<Call>, f: Text, e: Text)
    requires Headerless(calls, f)
    ensures Headed(calls, e) != []
    ensures forall c :: c in Headed(calls, e) ==>
              c.session == e && c.stable && !IsDecimal(c.native) && c.(session := f, origin := Some(Fallback)) in calls
    ensures forall id :: IsOneOf(calls, f, id) ==> IsOneOf(Headed(calls, e), f, id)
  {
    hide IsDecimal;
    var headed := Headed(calls, e);
    forall c | c in headed ensures c.session == e && c.stable && !IsDecimal(c.native) && c.(session := f, origin := Some(Fallback)) in calls {
      var i :| 0 <= i < |headed| && headed[i] == c;
      assert calls[i] in calls && calls[i] == c.(session := f, origin := Some(Fallback));
    }
    forall id | IsOneOf(calls, f, id) ensures IsOneOf(headed, f, id) {
      var c :| c in calls && id == CallId(f, c.native);
      var i :| 0 <= i < |calls| && calls[i] == c;
      assert headed[i] in headed && headed[i].native == c.native;
    }
  }

  lemma HeadedAll(calls: seq<Call>, f: Text, e: Text)
    requires Headerless(calls, f)
    ensures forall c :: c in calls ==> exists d :: d in Headed(calls, e) && d.session == e && d.native == c.native
  {
    hide IsDecimal;
    forall c | c in calls ensures exists d :: d in Headed(calls, e) && d.session == e && d.native == c.native {
      var i :| 0 <= i < |calls| && calls[i] == c;
      assert Headed(calls, e)[i] in Headed(calls, e);
    }
  }

  lemma HeadedContinues(u: Situation, calls: seq<Call>, f: Text, e: Text)
    requires f != e && Headerless(calls, f) && u.live == {e} && u.bindings == map[] && u.cached == Some(map[e := {f}])
    requires u.checkpointIdentity == Some(u.identity) && !HasRow(u, e)
    requires forall m :: m in u.metrics ==> m.session == f && m.identified && forall id :: id in m.covered ==> IsOneOf(calls, f, id)
    requires forall o :: o in u.history ==> IsOneOf(calls, f, o.id)
    requires forall c :: c in calls ==> exists o :: o in u.history && o.id == CallId(f, c.native)
    ensures Continues(u, Headed(calls, e), f, e) && ShowsAll(u, Headed(calls, e), f, e)
  {
    hide Headerless, Headed, IsDecimal, IsOneOf;
    var headed := Headed(calls, e);
    HeadedAre(calls, f, e);
    forall c | c in headed ensures exists o :: o in u.history && o.id == CallId(f, c.native) {
      assert c.(session := f, origin := Some(Fallback)) in calls;
    }
  }

  lemma SameAgain(calls: seq<Call>, f: Text, e: Text, renamed: seq<Call>)
    requires Headerless(calls, f) && |renamed| == |calls|
    requires forall i :: 0 <= i < |calls| ==> renamed[i] == Headed(calls, e)[i].(session := f, origin := Some(Fallback))
    ensures renamed == calls
  {
    forall i | 0 <= i < |calls| ensures renamed[i] == calls[i] {
      assert calls[i] in calls;
    }
  }

  lemma AllRecorded(before: seq<Metric>, after: seq<Metric>, source: Source, identity: nat, calls: seq<Call>)
    requires Recording(before, after, source, identity, calls)
    requires forall c :: c in calls ==> CoveredBy(before, source.runtime, CallId(c.session, c.native))
    ensures after == before
  {
    hide CoveredBy, RecordsNew, Recording;
    RecordingGrows(before, after, source, identity, calls);
    if |after| > |before| {
      FirstRecorded(before, after, source, identity, calls);
      NothingNew(before, after[|before|], source, identity, calls);
    }
  }

  lemma FirstRecorded(before: seq<Metric>, after: seq<Metric>, source: Source, identity: nat, calls: seq<Call>)
    requires Recording(before, after, source, identity, calls) && |after| > |before|
    ensures RecordsNew(before, after[|before|], source, identity, calls)
  {
    hide RecordsNew;
    assert after[..|before|] == before;
  }

  lemma NothingNew(metrics: seq<Metric>, m: Metric, source: Source, identity: nat, calls: seq<Call>)
    requires forall c :: c in calls ==> CoveredBy(metrics, source.runtime, CallId(c.session, c.native))
    ensures !RecordsNew(metrics, m, source, identity, calls)
  {
    hide CoveredBy;
  }

  // A log whose header names a blank session, after the calls were recorded under the file's own name.
  method BlankSessionLocksOut(source: Source, f: Text, native: Text, model: Text) returns (log: PromotionLog, outcome: Outcome)
    requires !IsBlank(f) && !IsDecimal(native)
    ensures fresh(log) && log.Valid() && outcome != Rejected
    ensures outcome == Done ==> Bindings(log.rows, source).None?
  {
    hide IsDecimal, IsBlank, Bindings, AliasesOk, Situation.Eligible, Situation.Matches, Refused, AliasesFit, CheckpointProven, MetricsProven,
      RowsProven, Proven, ShownAs, CachedTargets;
    BlankIsBlank();
    log := new PromotionLog();
    var blank: Text := [32];
    var m := Metric(source, f, Some(Fallback), Some(0), true, true, {CallId(f, native)});
    log.ChangeMetrics([m]);
    var c := Call.Call(blank, Some(Explicit), native, true, model);
    ghost var u := log.Situate(source, 0, [c], map[], false);
    NothingBound(source);
    assert f != blank;
    assert u == Situation(source, 0, {blank}, false, [m], {}, map[], None, None) by {
      assert SessionsOf([c]) == {blank};
    }
    OneMatch(u, f, blank, m, c);
    var aliases, renamed;
    outcome, aliases, renamed := log.Ingest(source, 0, [c], map[], false);
    if outcome == Done {
      MatchedIsBound(u, aliases, c, f);
      ReadableIff(log.rows, source);
    }
  }

  lemma BlankIsBlank()
    ensures IsBlank([32])
  {
  }

  lemma NothingBound(source: Source)
    ensures Bindings([], source) == Some(map[])
  {
  }

  lemma MatchedIsBound(u: Situation, aliases: map<Text, Text>, c: Call, f: Text)
    requires AliasesFit(u, aliases, u.Eligible([c]), [c]) && u.Matches(u.Eligible([c]), c) == {f}
    ensures f in aliases && aliases[f] == c.session
  {
    hide Situation.Matches, Situation.Eligible;
    assert c in [c];
  }

  ghost predicate OneFallback(u: Situation, f: Text, blank: Text, m: Metric, c: Call) {
    && u == Situation(u.source, 0, {blank}, false, [m], {}, map[], None, None) && f != blank
    && m == Metric(u.source, f, Some(Fallback), Some(0), true, true, {CallId(f, c.native)})
    && c == Call.Call(blank, Some(Explicit), c.native, true, c.model) && !IsDecimal(c.native)
  }

  lemma OneSession(u: Situation, f: Text, blank: Text, m: Metric, c: Call)
    requires OneFallback(u, f, blank, m, c)
    ensures u.Unknown() == {} && u.Fallbacks() == {f} && u.GenerationOf(f) == Same
    ensures u.Coverage(f) == {CallId(f, c.native)} && !u.Recorded(blank) && !u.Unidentified(f)
  {
    hide IsDecimal;
    assert m in u.metrics;
    assert u.Sources() == {f} && u.Past() == {f};
    assert u.Origins(f) == {Some(Fallback)} && u.Generations(f) == {Some(0)};
  }

  lemma OneTarget(u: Situation, f: Text, blank: Text, m: Metric, c: Call)
    requires OneFallback(u, f, blank, m, c)
    ensures u.Eligible([c]) == map[blank := {f}]
  {
    OneSession(u, f, blank, m, c);
    hide IsDecimal, Situation.Unknown, Situation.Fallbacks, Situation.GenerationOf;
    assert c in [c] && IsExplicit([c], blank);
    var proposed := u.Proposed([c]);
    assert proposed.Keys == {blank} && proposed[blank] == {f};
    var constrained := u.Constrained(proposed);
    assert constrained.Keys == {blank} && constrained[blank] == {f};
    assert u.Eligible([c]).Keys == {blank} && u.Eligible([c])[blank] == {f};
  }

  lemma OneMatch(u: Situation, f: Text, blank: Text, m: Metric, c: Call)
    requires OneFallback(u, f, blank, m, c)
    ensures u.Matches(u.Eligible([c]), c) == {f} && !Refused(u, [c])
  {
    OneTarget(u, f, blank, m, c);
    OneSession(u, f, blank, m, c);
    hide IsDecimal, Situation.Unknown, Situation.Fallbacks, Situation.GenerationOf, Situation.Eligible, Situation.Coverage, Situation.Recorded,
      Situation.Unidentified;
    assert c in [c] && u.Matches(map[blank := {f}], c) == {f};
    OneIsTaken(u, f, blank, c);
  }

  lemma OneIsTaken(u: Situation, f: Text, blank: Text, c: Call)
    requires var targets := map[blank := {f}]; u.Eligible([c]) == targets && u.Matches(targets, c) == {f}
    requires c.stable && !IsDecimal(c.native) && u.bindings == map[] && u.Unknown() == {} && u.GenerationOf(f) == Same
    requires u.history == {} && u.Coverage(f) == {CallId(f, c.native)} && !u.Recorded(c.session) && !u.Unidentified(f)
    ensures !Refused(u, [c])
  {
    hide IsDecimal, Situation.Unknown, Situation.Fallbacks, Situation.GenerationOf, Situation.Eligible, Situation.Coverage, Situation.Recorded,
      Situation.Unidentified, Situation.Matches;
    var targets := map[blank := {f}];
    assert !u.Barred(f);
    assert forall d :: d in [c] ==> d == c;
    assert u.MatchedIds(targets, [c], f) == {CallId(f, c.native)};
    assert !u.Incomplete(targets, [c]);
    assert !TwoTargets(u, targets, [c]);
    assert !u.TotalsOnly(targets);
  }
}
