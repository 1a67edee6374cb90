/**
 What `metrics.jsonl` already holds for each ingested session, kept up to date a suffix at a time. Any
 sequence of its operations over a growing stream leaves every tracked session with what a scan of the
 whole stream would give it, the pending tail and each staged row counted once. One operation alone can
 fall short of that, and `SeedMissesTail` says exactly when.
 */
module IngestLedger {
  import opened Wrappers
  import opened Json
  import opened Jsonl
  import opened Replay
  import opened Usage

  const MAX_TAIL_BYTES := 16 * 1024 * 1024

  // `metrics.jsonl` under one inode; appends keep the identity.
  datatype Metrics = Metrics(id: nat, bytes: string)

  function IdentityOf(file: Option<Metrics>): Option<nat> {
    if file.Some? then Some(file.value.id) else None
  }

  function Contents(file: Option<Metrics>): string {
    if file.Some? then file.value.bytes else ""
  }

  // The row of a complete object that lacks only its newline, unless it is too long to be one.
  function TailRow(c: Codec, b: string): seq<Json> {
    var n := PrefixEnd(b);
    if n < |b| && |b| - n <= MAX_TAIL_BYTES then Visible(c, b[n..]) else []
  }

  // The rows of the complete lines from an offset on.
  function RowsSince(c: Codec, b: string, offset: nat): seq<Json> {
    if offset <= PrefixEnd(b) then Rows(c, b[offset..PrefixEnd(b)]) else []
  }

  // The prefix a checkpoint was derived from: its file, its end, and the text of its last line.
  datatype Anchor = Anchor(identity: Option<nat>, offset: nat, hash: Fingerprint)

  predicate Intact(file: Option<Metrics>, a: Anchor) {
    if file.None? then a.identity.None? && a.offset == 0
    else a.identity == Some(file.value.id) && a.offset <= |file.value.bytes| && TailFingerprint(file.value.bytes, a.offset) == a.hash
  }

  // What a checkpoint says of its sessions is what the prefix it names adds up to, if that prefix is
  // still there: true of a checkpoint when it is exported, and kept by everything but a rewrite in place.
  ghost predicate Vouches(c: Codec, read: Reading, recorded: map<Key, State>, a: Anchor, file: Option<Metrics>) {
    && a.hash != Unterminated && (a.offset == 0 ==> a.hash == NoLine)
    && (Intact(file, a) ==> forall k :: k in recorded ==> recorded[k] == Sum(read, BLANK, Rows(c, Contents(file)[..a.offset]), k))
  }

  function Held(sessions: map<Key, State>, k: Key): State {
    if k in sessions then sessions[k] else BLANK
  }

  // The sessions these rows are of.
  function KeysOf(read: Reading, rows: seq<Json>): set<Key> {
    set row | row in rows && read(row).Some? :: read(row).value.key
  }

  // The rows have been added to the sessions selected by `keys`, or to any.
  ghost predicate Applied(read: Reading, before: map<Key, State>, after: map<Key, State>, rows: seq<Json>, keys: Option<set<Key>>) {
    && (forall k :: Held(after, k) == if keys.None? || k in keys.value then Sum(read, Held(before, k), rows, k) else Held(before, k))
    && before.Keys <= after.Keys && (keys.Some? ==> after.Keys <= before.Keys + keys.value)
  }

  // The sessions with the recorded states of the newcomers.
  function With(sessions: map<Key, State>, recorded: map<Key, State>, newcomers: set<Key>): map<Key, State>
    requires newcomers <= recorded.Keys
  {
    sessions + map k | k in newcomers :: recorded[k]
  }

  lemma WithKeys(sessions: map<Key, State>, recorded: map<Key, State>, newcomers: set<Key>, k: Key)
    requires newcomers <= recorded.Keys
    ensures k in With(sessions, recorded, newcomers) <==> k in sessions || k in newcomers
    ensures Held(With(sessions, recorded, newcomers), k) == if k in newcomers then recorded[k] else Held(sessions, k)
  {
  }

  lemma AppliedNone(read: Reading, before: map<Key, State>, keys: Option<set<Key>>)
    ensures Applied(read, before, before, [], keys)
  {
  }

  lemma AppliedTwice(read: Reading, a: map<Key, State>, b: map<Key, State>, c: map<Key, State>, rows: seq<Json>, more: seq<Json>,
                     keys: Option<set<Key>>)
    requires Applied(read, a, b, rows, keys) && Applied(read, b, c, more, keys)
    ensures Applied(read, a, c, rows + more, keys)
  {
    hide Sum, Held;
    forall k | keys.None? || k in keys.value ensures Held(c, k) == Sum(read, Held(a, k), rows + more, k) {
      SumAppend(read, Held(a, k), rows, more, k);
    }
  }

  lemma AppliedAt(read: Reading, before: map<Key, State>, after: map<Key, State>, rows: seq<Json>, keys: Option<set<Key>>, k: Key)
    requires Applied(read, before, after, rows, keys)
    ensures Held(after, k) == if keys.None? || k in keys.value then Sum(read, Held(before, k), rows, k) else Held(before, k)
    ensures before.Keys <= after.Keys && (keys.Some? ==> after.Keys <= before.Keys + keys.value)
  {
    hide Sum, Held;
  }

  class IngestLedger {
    const codec: Codec
    const read: Reading

    var sessions: map<Key, State>
    var full: bool
    var initialized: bool
    var provisional: bool
    var anchor: Anchor
    var staged: seq<Json>

    // The stream as it was when the state was derived, and the sessions adopted after its tail was met.
    ghost var base: string
    ghost var late: set<Key>

    constructor (codec: Codec, read: Reading)
      requires CodecOk(codec)
      ensures Valid() && !initialized && staged == []
      ensures this.codec == codec && this.read == read
    {
      this.codec, this.read := codec, read;
      sessions, full, initialized, provisional, staged := map[], false, false, false, [];
      anchor := Anchor(None, 0, NoLine);
      base, late := "", {};
    }

    function StateOf(k: Key): State
      reads this`sessions
    {
      Held(sessions, k)
    }

    // A full ledger tracks every session, the ones without rows included.
    predicate Tracked(k: Key)
      reads this`sessions, this`full
    {
      full || k in sessions
    }

    // The rows the ledger has met, for a session adopted before or after it met the pending tail.
    ghost function Met(adoptedLate: bool): seq<Json>
      reads this
      requires anchor.offset <= |base|
    {
      Rows(codec, base[..anchor.offset]) + (if provisional && !adoptedLate then TailRow(codec, base) else []) + staged
    }

    ghost predicate Valid()
      reads this
    {
      && CodecOk(codec)
      && (!initialized ==> sessions == map[] && !full && !provisional && staged == [])
      && (initialized ==>
            && anchor.offset <= |base| && Closed(base[..anchor.offset]) && anchor.hash == TailFingerprint(base, anchor.offset)
            && (provisional ==> anchor.offset == PrefixEnd(base))
            && (anchor.identity.None? ==> base == "")
            && forall k :: Tracked(k) ==> StateOf(k) == Sum(read, BLANK, Met(k in late), k))
      && (late != {} ==> initialized && provisional && !full) && late <= sessions.Keys
      && (forall row :: row in staged && read(row).Some? ==> Tracked(read(row).value.key))
    }

    // The stream has only grown since the state was derived, or its file was replaced.
    ghost predicate Follows(file: Option<Metrics>)
      reads this
    {
      initialized && file.Some? && anchor.identity == Some(file.value.id) ==> base <= file.value.bytes
    }

    // Every tracked session stands as a scan of the whole stream would leave it.
    ghost predicate Complete(file: Option<Metrics>)
      reads this
    {
      forall k :: Tracked(k) ==> Stands(file, k)
    }

    ghost predicate Stands(file: Option<Metrics>, k: Key)
      reads this
    {
      var b := Contents(file);
      StateOf(k) == Sum(read, BLANK, Rows(codec, b[..PrefixEnd(b)]) + TailRow(codec, b) + staged, k)
    }

    // Apply one row to the sessions selected by `keys`, or to any.
    method ApplyRow(row: Json, keys: Option<set<Key>>)
      modifies this`sessions
      ensures Applied(read, old(sessions), sessions, [row], keys)
      ensures keys.None? ==> sessions.Keys == old(sessions.Keys) + KeysOf(read, [row])
    {
      hide Apply;
      ghost var before := sessions;
      var r := read(row);
      if r.Some? && (keys.None? || r.value.key in keys.value) {
        sessions := sessions[r.value.key := Apply(StateOf(r.value.key), r.value)];
      }
      forall k ensures Sum(read, Held(before, k), [row], k) == ApplyTo(read, Held(before, k), row, k) {
        assert [row][1..] == [];
      }
    }

    // Apply the complete lines from `start`, to `end` or to the last one there is.
    method Scan(b: string, start: nat, end: Option<nat>, keys: Option<set<Key>>) returns (pos: nat)
      requires CodecOk(codec) && start <= |b| && Closed(b[..start])
      requires end.Some? ==> start <= end.value <= |b| && Closed(b[..end.value])
      modifies this`sessions
      ensures start <= pos <= |b| && Closed(b[..pos]) && pos == (if end.Some? then end.value else PrefixEnd(b))
      ensures Applied(read, old(sessions), sessions, Rows(codec, b[start..pos]), keys)
    {
      hide Rows, LineEnd, PrefixEnd, Applied;
      pos := start;
      NoRows(codec);
      assert b[start..start] == "";
      AppliedNone(read, sessions, keys);
      while pos < |b| && LineEnd(b[pos..]) < |b| - pos && (end.None? || pos + LineEnd(b[pos..]) + 1 <= end.value)
        invariant start <= pos <= |b| && Closed(b[..pos]) && (end.Some? ==> pos <= end.value)
        invariant Applied(read, old(sessions), sessions, Rows(codec, b[start..pos]), keys)
      {
        var n := LineEnd(b[pos..]);
        var record := codec.parse(b[pos..][..n]);
        NextLine(codec, b, start, pos, n);
        ghost var before := sessions;
        if record.Some? {
          ApplyRow(record.value, keys);
        } else {
          AppliedNone(read, sessions, keys);
        }
        assert Visible(codec, b[pos..][..n]) == if record.Some? then [record.value] else [];
        AppliedTwice(read, old(sessions), before, sessions, Rows(codec, b[start..pos]), Visible(codec, b[pos..][..n]), keys);
        pos := pos + n + 1;
      }
      ScanEnds(b, pos, end);
    }

    // Apply rows that are already parsed.
    method ApplyAll(rows: seq<Json>, keys: Option<set<Key>>)
      modifies this`sessions
      ensures Applied(read, old(sessions), sessions, rows, keys)
      ensures keys.None? ==> sessions.Keys == old(sessions.Keys) + KeysOf(read, rows)
    {
      hide Applied;
      var i := 0;
      AppliedNone(read, sessions, keys);
      while i < |rows|
        invariant 0 <= i <= |rows|
        invariant Applied(read, old(sessions), sessions, rows[..i], keys)
        invariant keys.None? ==> sessions.Keys == old(sessions.Keys) + KeysOf(read, rows[..i])
      {
        assert rows[..i + 1] == rows[..i] + [rows[i]];
        assert KeysOf(read, rows[..i + 1]) == KeysOf(read, rows[..i]) + KeysOf(read, [rows[i]]);
        ghost var before := sessions;
        ApplyRow(rows[i], keys);
        AppliedTwice(read, old(sessions), before, sessions, rows[..i], [rows[i]], keys);
        i := i + 1;
      }
      assert rows[..i] == rows;
    }

    // Apply the pending tail, if there is one; the ledger is then provisional.
    method ApplyTail(b: string, keys: Option<set<Key>>)
      modifies this`sessions, this`provisional
      ensures Applied(read, old(sessions), sessions, TailRow(codec, b), keys)
      ensures provisional == (old(provisional) || TailRow(codec, b) != [])
    {
      hide PrefixEnd, Applied;
      AppliedNone(read, sessions, keys);
      var n := PrefixEnd(b);
      if n < |b| && |b| - n <= MAX_TAIL_BYTES {
        var tail := codec.parse(b[n..]);
        if tail.Some? {
          ApplyRow(tail.value, keys);
          provisional := true;
        }
      }
    }

    // `_full_scan`: derive everything from byte 0.
    method FullScan(file: Option<Metrics>)
      requires CodecOk(codec)
      modifies this
      ensures Valid() && initialized && full && late == {} && staged == old(staged) && base == Contents(file)
      ensures anchor.identity == IdentityOf(file) && anchor.offset == PrefixEnd(Contents(file))
      ensures Complete(file) && (provisional <==> TailRow(codec, Contents(file)) != [])
    {
      hide Rows, PrefixEnd, LastLine, TailRow, TailFingerprint, Sum, Applied;
      var b := Contents(file);
      sessions, full, initialized, provisional := map[], true, true, false;
      assert b[..0] == "";
      var offset := Scan(b, 0, None, None);
      assert b[0..offset] == b[..offset];
      ghost var (lines, tail) := (Rows(codec, b[..offset]), TailRow(codec, b));
      ghost var scanned := sessions;
      ApplyTail(b, None);
      AppliedTwice(read, map[], scanned, sessions, lines, tail, None);
      scanned := sessions;
      ApplyAll(staged, None);
      AppliedTwice(read, map[], scanned, sessions, lines + tail, staged, None);
      anchor := Anchor(IdentityOf(file), offset, TailFingerprint(b, offset));
      base, late := b, {};
      forall k ensures StateOf(k) == Sum(read, BLANK, lines + tail + staged, k) {
        AppliedAt(read, map[], sessions, lines + tail + staged, None, k);
      }
      TailMet(codec, b);
    }

    // `advance`: catch up with the stream, from byte 0 if the prefix is gone or a tail was counted.
    method Advance(file: Option<Metrics>)
      requires Valid() && Follows(file)
      modifies this
      ensures Valid() && initialized && late == {} && staged == old(staged) && base == Contents(file)
      ensures anchor.identity == IdentityOf(file) && anchor.offset == PrefixEnd(Contents(file))
      ensures Complete(file) && (provisional <==> TailRow(codec, Contents(file)) != [])
      ensures forall k :: old(Tracked(k)) ==> Tracked(k)
      ensures !full ==> sessions.Keys == old(sessions.Keys)
      ensures old(initialized && !provisional && Intact(file, anchor)) ==> full == old(full)
    {
      hide Rows, PrefixEnd, LastLine, TailRow, Sum, Applied;
      if !initialized || provisional || !Intact(file, anchor) {
        FullScan(file);
        return;
      }
      var b := Contents(file);
      ghost var was := base;
      var o := anchor.offset;
      assert was[..o] == b[..o];
      var keys := if full then None else Some(sessions.Keys);
      ghost var before := sessions;
      var offset := Scan(b, o, None, keys);
      ghost var (suffix, tail) := (Rows(codec, b[o..offset]), TailRow(codec, b));
      ghost var scanned := sessions;
      ApplyTail(b, keys);
      AppliedTwice(read, before, scanned, sessions, suffix, tail, keys);
      anchor := Anchor(anchor.identity, offset, TailFingerprint(b, offset));
      base := b;
      assert sessions.Keys >= before.Keys && (!full ==> sessions.Keys == before.Keys) by {
        AppliedKeys(read, before, sessions, suffix + tail, keys);
      }
      forall k | Tracked(k)
        ensures StateOf(k) == Sum(read, BLANK, Rows(codec, b[..offset]) + TailRow(codec, b) + staged, k)
      {
        assert old(Tracked(k)) && (keys.None? || k in keys.value);
        assert Held(before, k) == Sum(read, BLANK, Rows(codec, b[..o]) + staged, k) by {
          assert Rows(codec, b[..o]) + [] + staged == Rows(codec, b[..o]) + staged;
          assert old(StateOf(k)) == Sum(read, BLANK, old(Met(false)), k);
        }
        AppliedAt(read, before, sessions, suffix + tail, keys, k);
        CaughtUp(codec, read, b, o, offset, staged, k);
      }
      TailMet(codec, b);
    }

    // `ensure`: track every key, deriving the whole stream if one is not tracked yet.
    method Ensure(file: Option<Metrics>, keys: set<Key>)
      requires Valid()
      modifies this
      ensures Valid() && staged == old(staged) && forall k :: k in keys ==> Tracked(k)
      ensures forall k :: old(Tracked(k)) ==> Tracked(k)
    {
      hide Rows, PrefixEnd, LastLine, Complete;
      if full || keys == {} {
        return;
      }
      if initialized && forall k :: k in keys ==> k in sessions {
        return;
      }
      FullScan(file);
    }

    // `stage`: count rows a dry run would have written. Whoever stages rows of a session that is not tracked makes
    // the ledger track it with these rows alone: every session is right afterwards if and only if the rows met
    // before add nothing to such a session. Ingest only stages rows of sessions it has asked for.
    method Stage(rows: seq<Json>)
      requires Valid() && initialized
      modifies this`sessions, this`staged
      ensures staged == old(staged) + rows
      ensures forall k :: StateOf(k) == Sum(read, old(StateOf(k)), rows, k)
      ensures forall k :: Tracked(k) <==> old(Tracked(k)) || k in KeysOf(read, rows)
      ensures Valid() <==> forall k :: k in KeysOf(read, rows) && !old(Tracked(k)) ==>
                Unowed(read, Sum(read, BLANK, rows, k), old(Met(false)), k)
    {
      hide Rows, PrefixEnd, LastLine, TailRow, Sum, Applied, Unowed;
      ghost var before := sessions;
      ApplyAll(rows, None);
      staged := staged + rows;
      forall k ensures StateOf(k) == Sum(read, Held(before, k), rows, k) {
        AppliedAt(read, before, sessions, rows, None, k);
      }
      forall k
        ensures old(Tracked(k)) ==> StateOf(k) == Sum(read, BLANK, Met(k in late), k)
        ensures !old(Tracked(k)) && k in KeysOf(read, rows) ==>
                  (StateOf(k) == Sum(read, BLANK, Met(k in late), k) <==> Unowed(read, Sum(read, BLANK, rows, k), old(Met(false)), k))
      {
        ghost var met := old(Met(k in late));
        assert Met(k in late) == met + rows;
        SumAppend(read, BLANK, met, rows, k);
        SumAppend(read, BLANK, rows, met, k);
        SumCommutes(read, BLANK, rows, met, k);
        UnowedIffUnchanged(read, Sum(read, BLANK, rows, k), met, k);
      }
      assert forall row :: row in rows && read(row).Some? ==> read(row).value.key in KeysOf(read, rows);
    }

    // `seed`: adopt a checkpoint's sessions, unless the metrics prefix it was derived from is gone. A session
    // adopted by a ledger that tracks others misses a pending row: it stands as a scan of the whole stream
    // would leave it if and only if that row is another session's, or adds nothing to it.
    method Seed(file: Option<Metrics>, recorded: map<Key, State>, checkpoint: Anchor) returns (ok: bool)
      requires Valid() && Follows(file) && Vouches(codec, read, recorded, checkpoint, file)
      modifies this
      ensures Valid() && staged == old(staged) && ok == Intact(file, checkpoint)
      ensures ok ==> forall k :: k in recorded ==> Tracked(k)
      ensures forall k :: old(Tracked(k)) ==> Tracked(k)
      ensures late <= old(late) + recorded.Keys
      ensures ok && !old(initialized) && recorded != map[] ==>
                sessions == recorded && anchor == checkpoint && base == Contents(file) && initialized && !full && !provisional
      ensures ok && old(initialized && !full && !provisional && Intact(file, anchor)) && !(recorded.Keys <= old(sessions.Keys)) ==>
                base == Contents(file) && !full && late == (if TailRow(codec, base) != [] then recorded.Keys - old(sessions.Keys) else {})
      ensures ok && old(initialized && !full && !provisional && Intact(file, anchor)) ==>
                forall k :: k in recorded && k !in old(sessions) ==>
                  (Stands(file, k) <==>
                   Unowed(read, Sum(read, recorded[k], RowsSince(codec, Contents(file), checkpoint.offset), k), TailRow(codec, Contents(file)), k))
    {
      hide Rows, PrefixEnd, LastLine, Sum, TailRow, Unowed;
      var b := Contents(file);
      if !Intact(file, checkpoint) {
        return false;
      }
      AnchorCloses(codec, file, checkpoint);
      if full {
        return true;
      }
      var newcomers := recorded.Keys - sessions.Keys;
      if newcomers == {} {
        assert forall k :: k in recorded ==> k in newcomers || k in sessions;
        return true;
      }
      if !initialized {
        Begin(b, recorded, checkpoint);
        return true;
      }
      Join(file, recorded, newcomers, checkpoint);
      ok := true;
    }

    // A ledger that tracks other sessions catches up first, then walks the newcomers forward.
    method Join(file: Option<Metrics>, recorded: map<Key, State>, newcomers: set<Key>, checkpoint: Anchor)
      requires Valid() && Follows(file) && initialized && !full && newcomers == recorded.Keys - sessions.Keys
      requires checkpoint.offset <= |Contents(file)| && Closed(Contents(file)[..checkpoint.offset])
      requires checkpoint.offset <= PrefixEnd(Contents(file))
      requires forall k :: k in recorded ==> recorded[k] == Sum(read, BLANK, Rows(codec, Contents(file)[..checkpoint.offset]), k)
      modifies this
      ensures Valid() && staged == old(staged) && base == Contents(file) && late <= newcomers
      ensures forall k :: old(Tracked(k)) || k in newcomers ==> Tracked(k)
      ensures old(!provisional && Intact(file, anchor)) ==> !full && late == (if TailRow(codec, base) != [] then newcomers else {})
      ensures !full ==> forall k :: k in newcomers ==>
                (Stands(file, k) <==>
                 Unowed(read, Sum(read, recorded[k], RowsSince(codec, Contents(file), checkpoint.offset), k), TailRow(codec, Contents(file)), k))
    {
      hide Rows, PrefixEnd, LastLine, Sum, TailRow, Unowed, Intact;
      var b := Contents(file);
      Advance(file);
      if full {
        return;
      }
      Adopt(b, recorded, newcomers, checkpoint.offset);
      forall k | k in newcomers
        ensures Stands(file, k) <==>
                Unowed(read, Sum(read, recorded[k], RowsSince(codec, b, checkpoint.offset), k), TailRow(codec, b), k)
      {
        forall row | row in staged && read(row).Some? ensures read(row).value.key != k {
          assert old(Tracked(read(row).value.key));
        }
        SeedMissesTail(codec, read, b, recorded[k], checkpoint.offset, staged, k);
      }
    }

    // An uninitialized ledger takes the checkpoint's sessions and its offset.
    method Begin(b: string, recorded: map<Key, State>, checkpoint: Anchor)
      requires Valid() && !initialized && checkpoint.offset <= |b| && Closed(b[..checkpoint.offset])
      requires checkpoint.hash == TailFingerprint(b, checkpoint.offset) && (checkpoint.identity.None? ==> b == "")
      requires forall k :: k in recorded ==> recorded[k] == Sum(read, BLANK, Rows(codec, b[..checkpoint.offset]), k)
      modifies this
      ensures Valid() && initialized && staged == old(staged) && late == {} && sessions == recorded && !full && !provisional
      ensures anchor == checkpoint && base == b
    {
      hide Rows, PrefixEnd, LastLine, ApplyTo, TailRow;
      sessions, anchor, initialized := recorded, checkpoint, true;
      base := b;
      forall k | Tracked(k) ensures StateOf(k) == Sum(read, BLANK, Met(k in late), k) {
        assert Met(false) == Rows(codec, b[..checkpoint.offset]);
      }
    }

    // Walk the newcomers forward from their checkpoint to where the ledger already is.
    method Adopt(b: string, recorded: map<Key, State>, newcomers: set<Key>, offset: nat)
      requires Valid() && initialized && !full && late == {} && base == b
      requires offset <= anchor.offset && Closed(b[..offset])
      requires newcomers == recorded.Keys - sessions.Keys
      requires forall k :: k in recorded ==> recorded[k] == Sum(read, BLANK, Rows(codec, b[..offset]), k)
      modifies this`sessions, this`late
      ensures Valid() && forall k :: k in sessions <==> k in old(sessions) || k in newcomers
      ensures forall k :: k in newcomers ==> StateOf(k) == Sum(read, recorded[k], Rows(codec, b[offset..anchor.offset]), k)
      ensures late == if provisional then newcomers else {}
    {
      hide Rows, PrefixEnd, LastLine, TailRow, Sum, Applied, With;
      ghost var before := With(sessions, recorded, newcomers);
      sessions := With(sessions, recorded, newcomers);
      ghost var rows := Rows(codec, b[offset..anchor.offset]);
      var end := Scan(b, offset, Some(anchor.offset), Some(newcomers));
      late := if provisional then newcomers else {};
      forall k
        ensures k in sessions <==> k in old(sessions) || k in newcomers
        ensures k in old(sessions) ==> StateOf(k) == old(StateOf(k))
      {
        WithKeys(old(sessions), recorded, newcomers, k);
        AppliedAt(read, before, sessions, rows, Some(newcomers), k);
      }
      forall k | k in newcomers
        ensures StateOf(k) == Sum(read, recorded[k], rows, k) == Sum(read, BLANK, Rows(codec, b[..anchor.offset]) + [] + staged, k)
      {
        WithKeys(old(sessions), recorded, newcomers, k);
        AppliedAt(read, before, sessions, rows, Some(newcomers), k);
        forall row | row in staged && read(row).Some? ensures read(row).value.key != k {
          assert old(Tracked(read(row).value.key));
        }
        Adopted(codec, read, b, offset, anchor.offset, staged, k);
      }
      forall k | Tracked(k) ensures StateOf(k) == Sum(read, BLANK, Met(k in late), k) {
        if k !in newcomers {
          assert old(Tracked(k)) && Met(k in late) == old(Met(false));
        }
      }
    }

    // `export`: what a checkpoint may say. A ledger that counted a pending tail or staged rows refuses.
    method Export(keys: set<Key>) returns (recorded: Option<map<Key, State>>, checkpoint: Anchor)
      requires Valid() && initialized && forall k :: k in keys ==> Tracked(k)
      ensures recorded.None? <==> provisional || staged != []
      ensures checkpoint == anchor
      ensures recorded.Some? ==> recorded.value.Keys == keys
      ensures recorded.Some? ==> forall file :: Follows(file) ==> Vouches(codec, read, recorded.value, checkpoint, file)
    {
      hide Rows, PrefixEnd, LastLine, TailRow;
      checkpoint := anchor;
      if provisional || staged != [] {
        return None, anchor;
      }
      FingerprintCloses(base, anchor.offset);
      recorded := Some(map k | k in keys :: StateOf(k));
      forall file | Follows(file) ensures Vouches(codec, read, recorded.value, checkpoint, file) {
        if Intact(file, checkpoint) {
          var b := Contents(file);
          assert b[..anchor.offset] == base[..anchor.offset];
          forall k | k in keys ensures StateOf(k) == Sum(read, BLANK, Rows(codec, b[..anchor.offset]), k) {
            assert Met(k in late) == Rows(codec, base[..anchor.offset]);
          }
        }
      }
    }
  }

  // The pending row is not this session's, or leaves it as it is.
  predicate Unowed(read: Reading, s: State, tail: seq<Json>, k: Key) {
    forall row :: row in tail && read(row).Some? && read(row).value.key == k ==> Absorbed(s, read(row).value)
  }

  // A session walked forward from its checkpoint to the complete-prefix end, no row of which is staged, has what
  // a scan of the whole stream would give it if and only if the pending row is another's or adds nothing.
  lemma SeedMissesTail(c: Codec, read: Reading, b: string, s: State, o: nat, staged: seq<Json>, k: Key)
    requires CodecOk(c) && o <= PrefixEnd(b) && Closed(b[..o]) && s == Sum(read, BLANK, Rows(c, b[..o]), k)
    requires forall row :: row in staged && read(row).Some? ==> read(row).value.key != k
    ensures Sum(read, s, RowsSince(c, b, o), k) == Sum(read, BLANK, Rows(c, b[..PrefixEnd(b)]) + TailRow(c, b) + staged, k)
        <==> Unowed(read, Sum(read, s, RowsSince(c, b, o), k), TailRow(c, b), k)
  {
    hide Rows, Sum, TailRow, Unowed, PrefixEnd;
    PrefixEndSpec(b);
    var (end, tail) := (PrefixEnd(b), TailRow(c, b));
    var lines := Rows(c, b[..end]);
    assert b[..end] == b[..o] + b[o..end];
    RowsAppend(c, b[..o], b[o..end]);
    SumAppend(read, BLANK, Rows(c, b[..o]), Rows(c, b[o..end]), k);
    SumAppend(read, BLANK, lines, tail, k);
    SumAppend(read, BLANK, lines + tail, staged, k);
    SumNone(read, Sum(read, BLANK, lines + tail, k), staged, k);
    UnowedIffUnchanged(read, Sum(read, BLANK, lines, k), tail, k);
  }

  // Rows leave a session as it is exactly when each is another session's or adds nothing to it.
  lemma {:induction false} UnowedIffUnchanged(read: Reading, s: State, rows: seq<Json>, k: Key)
    ensures Sum(read, s, rows, k) == s <==> Unowed(read, s, rows, k)
    decreases |rows|
  {
    hide Apply, Absorbed, Within;
    if rows != [] {
      var (first, rest) := (rows[0], rows[1..]);
      assert forall row :: row in rows <==> row == first || row in rest;
      var s1 := ApplyTo(read, s, first, k);
      if read(first).Some? {
        AbsorbedIffUnchanged(s, read(first).value);
      }
      UnowedIffUnchanged(read, s, rest, k);
      if Sum(read, s, rows, k) == s {
        SumGrows(read, s, [first], k);
        assert [first][1..] == [] && Sum(read, s, [first], k) == s1;
        SumGrows(read, s1, rest, k);
        WithinBothWays(s, s1);
      }
    }
  }

  // A complete ledger reads each session off the rows of the stream, the pending one and the staged ones: its
  // unidentified totals are those of exactly the rows that name no source call.
  lemma CompleteIsReadOffTheRows(ledger: IngestLedger, file: Option<Metrics>, k: Key)
    requires ledger.Complete(file) && ledger.Tracked(k)
    ensures var b, s := Contents(file), ledger.StateOf(k);
            var rows := Rows(ledger.codec, b[..PrefixEnd(b)]) + TailRow(ledger.codec, b) + ledger.staged;
            && (forall m, p :: PartOf(Of(s.models, m), p) == Column(ledger.read, rows, k, m, p, false))
            && (forall m, p :: PartOf(Of(s.unidentified, m), p) == Column(ledger.read, rows, k, m, p, true))
            && forall f :: Records(s, f) <==> SomeRowSays(ledger.read, rows, k, f)
  {
    hide Rows, PrefixEnd, TailRow, Sum, PartOf, Column, SomeRowSays, Records;
    var b, s := Contents(file), ledger.StateOf(k);
    var rows := Rows(ledger.codec, b[..PrefixEnd(b)]) + TailRow(ledger.codec, b) + ledger.staged;
    assert ledger.Stands(file, k) && s == Sum(ledger.read, BLANK, rows, k);
    StateIsReadOffTheRows(ledger.read, rows, k);
  }

  lemma AppliedKeys(read: Reading, before: map<Key, State>, after: map<Key, State>, rows: seq<Json>, keys: Option<set<Key>>)
    requires Applied(read, before, after, rows, keys)
    ensures before.Keys <= after.Keys && (keys.Some? ==> after.Keys <= before.Keys + keys.value)
  {
    hide Sum, Held;
  }

  lemma NextLine(c: Codec, b: string, start: nat, pos: nat, n: nat)
    requires CodecOk(c) && start <= pos < |b| && Closed(b[..pos]) && Closed(b[..start]) && n == LineEnd(b[pos..]) < |b| - pos
    ensures Closed(b[..pos + n + 1])
    ensures Rows(c, b[start..pos + n + 1]) == Rows(c, b[start..pos]) + Visible(c, b[pos..][..n])
  {
    hide Rows, LineEnd;
    var line := b[pos..][..n];
    LineEndSpec(b[pos..]);
    assert b[pos..][n] == '\n' == b[pos + n];
    assert b[start..pos + n + 1] == b[start..pos] + (line + "\n");
    assert Closed(b[start..pos]) by {
      if start < pos {
        assert b[start..pos][pos - start - 1] == b[..pos][pos - 1];
      }
    }
    RowsOfLine(c, line);
    RowsAppend(c, b[start..pos], line + "\n");
  }

  lemma ScanEnds(b: string, pos: nat, end: Option<nat>)
    requires pos <= |b| && Closed(b[..pos])
    requires end.Some? ==> pos <= end.value <= |b| && Closed(b[..end.value])
    requires !(pos < |b| && LineEnd(b[pos..]) < |b| - pos && (end.None? || pos + LineEnd(b[pos..]) + 1 <= end.value))
    ensures pos == if end.Some? then end.value else PrefixEnd(b)
  {
    hide LineEnd, PrefixEnd;
    LineEndSpec(b[pos..]);
    if end.None? {
      assert forall i :: pos <= i < |b| ==> b[i] == b[pos..][i - pos];
      PrefixEndUnique(b, pos);
    }
  }

  // Rows of a suffix, then the tail, met after the staged rows, add up to the same as in stream order.
  lemma CaughtUp(c: Codec, read: Reading, b: string, o: nat, end: nat, staged: seq<Json>, k: Key)
    requires CodecOk(c) && o <= end <= |b| && Closed(b[..o])
    ensures Sum(read, Sum(read, BLANK, Rows(c, b[..o]) + staged, k), Rows(c, b[o..end]) + TailRow(c, b), k)
         == Sum(read, BLANK, Rows(c, b[..end]) + TailRow(c, b) + staged, k)
  {
    hide Rows, Sum, TailRow;
    var old_, suffix, tail := Rows(c, b[..o]), Rows(c, b[o..end]), TailRow(c, b);
    assert b[..end] == b[..o] + b[o..end];
    RowsAppend(c, b[..o], b[o..end]);
    SumAppend(read, BLANK, old_, staged, k);
    var s := Sum(read, BLANK, old_, k);
    SumAppend(read, s, staged, suffix + tail, k);
    SumCommutes(read, s, staged, suffix + tail, k);
    SumAppend(read, BLANK, old_, suffix + tail + staged, k);
    assert old_ + (suffix + tail + staged) == old_ + suffix + tail + staged;
  }

  // A stream either has a pending tail or its complete lines are all of it, as far as rows go.
  lemma TailMet(c: Codec, b: string)
    ensures Closed(b[..PrefixEnd(b)])
  {
    PrefixEndSpec(b);
  }

  lemma AnchorCloses(c: Codec, file: Option<Metrics>, a: Anchor)
    requires Intact(file, a) && a.hash != Unterminated
    ensures a.offset <= |Contents(file)| && Closed(Contents(file)[..a.offset]) && a.offset <= PrefixEnd(Contents(file))
    ensures file.Some? ==> a.hash == TailFingerprint(Contents(file), a.offset)
  {
    var b := Contents(file);
    FingerprintCloses(b, a.offset);
    PrefixEndSpec(b);
  }

  // Rows of sessions that are not `k` do not count for it.
  lemma {:induction false} SumNone(read: Reading, s: State, rows: seq<Json>, k: Key)
    requires forall row :: row in rows && read(row).Some? ==> read(row).value.key != k
    ensures Sum(read, s, rows, k) == s
  {
    if rows != [] {
      assert rows[0] in rows;
      SumNone(read, s, rows[1..], k);
    }
  }

  // A newcomer walked forward from its checkpoint.
  lemma Adopted(c: Codec, read: Reading, b: string, o: nat, end: nat, staged: seq<Json>, k: Key)
    requires CodecOk(c) && o <= end <= |b| && Closed(b[..o])
    requires forall row :: row in staged && read(row).Some? ==> read(row).value.key != k
    ensures Sum(read, Sum(read, BLANK, Rows(c, b[..o]), k), Rows(c, b[o..end]), k) == Sum(read, BLANK, Rows(c, b[..end]) + staged, k)
    ensures Rows(c, b[..end]) + [] + staged == Rows(c, b[..end]) + staged
  {
    hide Rows, ApplyTo;
    assert b[..end] == b[..o] + b[o..end];
    RowsAppend(c, b[..o], b[o..end]);
    SumAppend(read, BLANK, Rows(c, b[..o]), Rows(c, b[o..end]), k);
    SumAppend(read, BLANK, Rows(c, b[..end]), staged, k);
    SumNone(read, Sum(read, BLANK, Rows(c, b[..end]), k), staged, k);
  }

  // A checkpoint goes on vouching while its stream grows, and vouches for nothing once the file is replaced.
  lemma VouchesLater(c: Codec, read: Reading, recorded: map<Key, State>, a: Anchor, file: Option<Metrics>, later: Option<Metrics>)
    requires Vouches(c, read, recorded, a, file) && Intact(file, a) && later.Some?
    requires file.Some? && file.value.id == later.value.id ==> file.value.bytes <= later.value.bytes
    ensures Vouches(c, read, recorded, a, later)
  {
    hide Rows, LastLine;
    if Intact(later, a) {
      assert Contents(file)[..a.offset] == Contents(later)[..a.offset];
    }
  }

  // Such a session exists: two sessions are seeded one after the other, and the second one's only row is
  // the pending tail. Its state stays blank until the ledger advances again.
  method SeedFallsShort(row: Json, first: Key, second: Key, read: Reading) returns (ledger: IngestLedger)
    requires JSON_CODEC.accepts(row) && |Print(row)| <= MAX_TAIL_BYTES && first != second
    requires read(row).Some? && read(row).value.key == second
    ensures ledger.Valid() && ledger.Tracked(second) && ledger.read == read && ledger.codec == JSON_CODEC
    ensures !ledger.Stands(Some(Metrics(1, Print(row))), second)
  {
    hide Rows, PrefixEnd, Apply, LineEnd, Sum, Identified, TailRow, TailFingerprint, Vouches, RowsSince;
    ledger := SeededOnce(first, read);
    var text := Print(row);
    PendingRow(row);
    AnchorAtStart(text);
    BlankVouches(read, second, 1, text);
    assert second in map[second := BLANK];
    var ok := ledger.Seed(Some(Metrics(1, text)), map[second := BLANK], Anchor(Some(1), 0, NoLine));
    PendingRowIsOwed(row, second, read);
  }

  lemma PendingRowIsOwed(row: Json, k: Key, read: Reading)
    requires JSON_CODEC.accepts(row) && |Print(row)| <= MAX_TAIL_BYTES
    requires read(row).Some? && read(row).value.key == k
    ensures !Unowed(read, Sum(read, BLANK, RowsSince(JSON_CODEC, Print(row), 0), k), TailRow(JSON_CODEC, Print(row)), k)
  {
    hide Rows, PrefixEnd, Apply, Identified, TailRow;
    PendingRow(row);
    JsonCodecOk();
    NoRows(JSON_CODEC);
    assert Print(row)[0..0] == "" && row in TailRow(JSON_CODEC, Print(row));
    assert !Absorbed(BLANK, read(row).value);
  }

  // So does staging: a session has a row in the stream and is not tracked, and a second one is staged.
  method StageFallsShort(row: Json, first: Key, second: Key, read: Reading) returns (ledger: IngestLedger)
    requires JSON_CODEC.accepts(row) && first != second
    requires read(row).Some? && read(row).value.key == second && read(row).value.totals != ZERO
    ensures !ledger.Valid() && ledger.staged == [row]
  {
    hide Rows, PrefixEnd, Apply, LineEnd, Sum, Identified, TailRow, TailFingerprint, Vouches, RowsSince;
    ledger := SeededOnce(first, read);
    var text := Print(row) + "\n";
    AnchorAtStart(text);
    ledger.Advance(Some(Metrics(1, text)));
    OneLine(row);
    assert second in KeysOf(read, [row]);
    assert ledger.Met(false) == [row];
    StagedIsOwed(row, second, read);
    ledger.Stage([row]);
  }

  lemma OneLine(row: Json)
    requires JSON_CODEC.accepts(row)
    ensures var text := Print(row) + "\n";
            PrefixEnd(text) == |text| && Rows(JSON_CODEC, text[..|text|]) == [row] && TailRow(JSON_CODEC, text) == []
  {
    hide Rows;
    JsonCodecOk();
    var text := Print(row) + "\n";
    assert CodecOkFor(JSON_CODEC, row) && JSON_CODEC.encode(row) == Print(row);
    assert text[..|text|] == text && Closed(text);
    RowsOfLine(JSON_CODEC, Print(row));
  }

  lemma StagedIsOwed(row: Json, k: Key, read: Reading)
    requires read(row).Some? && read(row).value.key == k && read(row).value.totals != ZERO
    ensures !Unowed(read, Sum(read, BLANK, [row], k), [row], k)
  {
    hide Apply, Sum;
    assert row in [row];
  }

  method SeededOnce(k: Key, read: Reading) returns (ledger: IngestLedger)
    ensures fresh(ledger) && ledger.Valid() && ledger.codec == JSON_CODEC && ledger.read == read && ledger.staged == []
    ensures ledger.sessions == map[k := BLANK] && ledger.initialized && !ledger.full && !ledger.provisional
    ensures ledger.anchor == Anchor(Some(1), 0, NoLine) && ledger.base == ""
  {
    hide Rows, PrefixEnd, Apply, LineEnd, Sum, TailRow, TailFingerprint, Vouches;
    JsonCodecOk();
    ledger := new IngestLedger(JSON_CODEC, read);
    BlankVouches(read, k, 1, "");
    AnchorAtStart("");
    assert k in map[k := BLANK];
    var ok := ledger.Seed(Some(Metrics(1, "")), map[k := BLANK], Anchor(Some(1), 0, NoLine));
  }

  lemma BlankVouches(read: Reading, k: Key, id: nat, text: string)
    ensures Vouches(JSON_CODEC, read, map[k := BLANK], Anchor(Some(id), 0, NoLine), Some(Metrics(id, text)))
  {
    JsonCodecOk();
    NoRows(JSON_CODEC);
    hide Rows;
    assert text[..0] == "";
  }

  lemma AnchorAtStart(text: string)
    ensures TailFingerprint(text, 0) == NoLine
  {
  }

  lemma PendingRow(row: Json)
    requires JSON_CODEC.accepts(row) && |Print(row)| <= MAX_TAIL_BYTES
    ensures PrefixEnd(Print(row)) == 0 && TailRow(JSON_CODEC, Print(row)) == [row]
  {
    JsonCodecOk();
    assert CodecOkFor(JSON_CODEC, row);
    TailOfOne(JSON_CODEC, row);
  }

  lemma TailOfOne(c: Codec, row: Json)
    requires CodecOk(c) && CodecOkFor(c, row) && |c.encode(row)| <= MAX_TAIL_BYTES
    ensures PrefixEnd(c.encode(row)) == 0 && TailRow(c, c.encode(row)) == [row]
  {
    var text := c.encode(row);
    assert text[..0] == "" && text[0..] == text;
    PrefixEndUnique(text, 0);
  }
}
