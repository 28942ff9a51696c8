/** Recent-first views of the P25 tables: each filters a table, orders the rows that pass, and
    copies out as many as the caller has room for. */
module P25Views {
  import opened NewestFirst
  import opened Pointers

  const NEIGHBORS_MAX := 32
  const CANDIDATES_MAX := 16
  const PATCHES_MAX := 8
  const PATCH_LIFETIME := 20
  const GROUP_ROWS := 512
  const RADIO_ROWS := 256

  datatype NeighborRow = NeighborRow(freq: int, wacn: nat, sysid: nat, rfss: nat, site: nat, lra: nat,
                                     wacnValid: nat, lraValid: nat, cfva: nat, cfvaValid: bool, lastSeen: int)

  datatype Neighbor = Neighbor(freq: int, wacn: nat, sysid: nat, rfss: nat, site: nat, lra: nat, wacnValid: nat,
                               lraValid: nat, currentCc: bool, candidate: bool, cfvaText: string, lastSeen: int)

  datatype Candidates = Candidates(count: int, frequencies: seq<int>)

  datatype NeighborTable = NeighborTable(count: int, rows: seq<NeighborRow>, ccFreq: int, candidates: Given<Candidates>) {
    ghost predicate Valid() {
      |rows| == NEIGHBORS_MAX && (candidates.Given? ==> |candidates.value.frequencies| == CANDIDATES_MAX)
    }
  }

  /** The rows in use: as many as the counter says, but never beyond the table. */
  function InUse(count: int, limit: nat): (k: nat)
    ensures k <= limit
  {
    if count < 0 then 0 else if count < limit then count else limit
  }

  function NeighborKeys(t: NeighborTable, k: nat): seq<Key>
    requires k <= |t.rows|
  {
    seq(k, i requires 0 <= i < k => Key(t.rows[i].freq > 0, t.rows[i].lastSeen))
  }

  ghost predicate AmongCandidates(candidates: Given<Candidates>, freq: int) {
    && candidates.Given? && 0 < candidates.value.count <= CANDIDATES_MAX <= |candidates.value.frequencies|
    && freq in candidates.value.frequencies[..candidates.value.count]
  }

  method IsCandidate(candidates: Given<Candidates>, freq: int) returns (found: bool)
    requires candidates.Given? ==> |candidates.value.frequencies| == CANDIDATES_MAX
    ensures found <==> AmongCandidates(candidates, freq)
  {
    var count := if candidates.Given? && 0 < candidates.value.count <= CANDIDATES_MAX then candidates.value.count else 0;
    for i := 0 to count
      invariant forall k :: 0 <= k < i ==> candidates.value.frequencies[k] != freq
    {
      if candidates.value.frequencies[i] == freq {
        return true;
      }
    }
    found := false;
  }

  /** The site flags as text: a question mark when unknown, a dash when there are none. */
  function CfvaText(row: NeighborRow, format: nat -> string): string {
    if !row.cfvaValid then "?" else if format(row.cfva) == "" then "-" else format(row.cfva)
  }

  ghost function NeighborOf(t: NeighborTable, row: NeighborRow, format: nat -> string): Neighbor {
    Neighbor(row.freq, row.wacn, row.sysid, row.rfss, row.site, row.lra, row.wacnValid, row.lraValid,
             row.freq == t.ccFreq, AmongCandidates(t.candidates, row.freq), CfvaText(row, format), row.lastSeen)
  }

  /** The ranking loop: the arrays end up holding the newest-first list of the rows in use. */
  method RankNeighbors(t: NeighborTable, indices: array<int>, times: array<int>, ghost all: seq<Key>) returns (n: nat)
    requires t.Valid() && all == NeighborKeys(t, InUse(t.count, NEIGHBORS_MAX))
    requires indices != times && indices.Length == times.Length == NEIGHBORS_MAX
    modifies indices, times
    ensures n == |Ranked(all)| <= NEIGHBORS_MAX && Holds(indices, times, Ranked(all))
  {
    n := 0;
    var i := 0;
    while i < t.count && i < NEIGHBORS_MAX
      invariant 0 <= i <= InUse(t.count, NEIGHBORS_MAX)
      invariant n == |Ranked(all[..i])| <= i && Holds(indices, times, Ranked(all[..i]))
    {
      var row := t.rows[i];
      RankedNext(all, i);
      ghost var before := Ranked(all[..i]);
      assert all[i] == Key(row.freq > 0, row.lastSeen);
      if row.freq > 0 {
        Insert(indices, times, n, i, row.lastSeen, before);
        n := n + 1;
      }
      i := i + 1;
    }
    assert all[..i] == all;
  }

  /** The copying loop. */
  method FillNeighbors(t: NeighborTable, indices: array<int>, n: nat, out: array<Neighbor>, format: nat -> string,
                       ghost shown: seq<Entry>)
    requires t.Valid() && n == |shown| <= indices.Length && n <= out.Length
    requires forall k :: 0 <= k < n ==> indices[k] == shown[k].index && shown[k].index < NEIGHBORS_MAX
    modifies out
    ensures forall k :: n <= k < out.Length ==> out[k] == old(out[k])
    ensures forall j :: 0 <= j < n ==> out[j] == NeighborOf(t, t.rows[shown[j].index], format)
  {
    for i := 0 to n
      invariant forall k :: i <= k < out.Length ==> out[k] == old(out[k])
      invariant forall j :: 0 <= j < i ==> out[j] == NeighborOf(t, t.rows[shown[j].index], format)
    {
      var e := t.rows[indices[i]];
      var candidate := IsCandidate(t.candidates, e.freq);
      out[i] := Neighbor(e.freq, e.wacn, e.sysid, e.rfss, e.site, e.lra, e.wacnValid, e.lraValid,
                         e.freq == t.ccFreq, candidate, CfvaText(e, format), e.lastSeen);
    }
  }

  /** The neighbour view. `format` renders the site flags. */
  method Neighbors(state: Given<NeighborTable>, out: array?<Neighbor>, capacity: int, format: nat -> string)
    returns (n: nat, ghost shown: seq<Entry>)
    requires state.Given? ==> state.value.Valid()
    requires out != null && capacity > 0 ==> capacity <= out.Length
    modifies out
    ensures n == |shown|
    ensures out != null ==> n <= out.Length && forall k :: n <= k < out.Length ==> out[k] == old(out[k])
    ensures state.NoPointer? || out == null || capacity <= 0 ==> n == 0
    ensures state.Given? && out != null && capacity > 0 ==>
              && Selection(shown, NeighborKeys(state.value, InUse(state.value.count, NEIGHBORS_MAX)), capacity)
              && forall j :: 0 <= j < n ==> shown[j].index < NEIGHBORS_MAX
                                            && out[j] == NeighborOf(state.value, state.value.rows[shown[j].index], format)
  {
    if state.NoPointer? || out == null || capacity <= 0 {
      return 0, [];
    }
    var t := state.value;
    var indices, times := new int[NEIGHBORS_MAX], new int[NEIGHBORS_MAX];
    ghost var all := NeighborKeys(t, InUse(t.count, NEIGHBORS_MAX));
    n := RankNeighbors(t, indices, times, all);
    SelectionIsCut(all, capacity);
    if n > capacity {
      n := capacity;
    }
    shown := Ranked(all)[..n];
    assert forall k :: 0 <= k < n ==> Drawn(shown[k], all);
    FillNeighbors(t, indices, n, out, format, shown);
  }

  // --- Patches --------------------------------------------------------------------------

  datatype PatchRow = PatchRow(sgid: nat, isPatch: nat, active: bool, lastUpdate: int,
                               groupCount: nat, groups: seq<nat>, radioCount: nat, radios: seq<nat>)

  datatype Patch = Patch(sgid: nat, isPatch: nat, groupCount: nat, radioCount: nat,
                         groups: seq<nat>, radios: seq<nat>, lastSeen: int)

  datatype PatchTable = PatchTable(count: int, rows: seq<PatchRow>) {
    ghost predicate Valid() {
      && |rows| == PATCHES_MAX
      && forall i :: 0 <= i < |rows| ==> |rows[i].groups| == PATCHES_MAX && |rows[i].radios| == PATCHES_MAX
    }
  }

  /** A dated announcement past its lifetime is out; an undated one never expires. */
  predicate PatchIsShown(row: PatchRow, now: int) {
    !(row.lastUpdate > 0 && now - row.lastUpdate > PATCH_LIFETIME) && row.active && row.sgid != 0
  }

  function PatchKeys(t: PatchTable, k: nat, now: int): seq<Key>
    requires k <= |t.rows|
  {
    seq(k, i requires 0 <= i < k => Key(PatchIsShown(t.rows[i], now), t.rows[i].lastUpdate))
  }

  /** The first `count` members (at most all), the rest zero. */
  function Members(count: nat, members: seq<nat>): (r: seq<nat>)
    requires |members| == PATCHES_MAX
    ensures |r| == PATCHES_MAX
    ensures forall i :: 0 <= i < PATCHES_MAX ==> r[i] == if i < count then members[i] else 0
  {
    var k := if count > PATCHES_MAX then PATCHES_MAX else count;
    members[..k] + seq(PATCHES_MAX - k, _ => 0)
  }

  function PatchOf(row: PatchRow): Patch
    requires |row.groups| == PATCHES_MAX && |row.radios| == PATCHES_MAX
  {
    Patch(row.sgid, row.isPatch,
          if row.groupCount > PATCHES_MAX then PATCHES_MAX else row.groupCount,
          if row.radioCount > PATCHES_MAX then PATCHES_MAX else row.radioCount,
          Members(row.groupCount, row.groups), Members(row.radioCount, row.radios), row.lastUpdate)
  }

  method RankPatches(t: PatchTable, now: int, indices: array<int>, times: array<int>, ghost all: seq<Key>) returns (n: nat)
    requires t.Valid() && all == PatchKeys(t, InUse(t.count, PATCHES_MAX), now)
    requires indices != times && indices.Length == times.Length == PATCHES_MAX
    modifies indices, times
    ensures n == |Ranked(all)| <= PATCHES_MAX && Holds(indices, times, Ranked(all))
  {
    n := 0;
    var i := 0;
    while i < t.count && i < PATCHES_MAX
      invariant 0 <= i <= InUse(t.count, PATCHES_MAX)
      invariant n == |Ranked(all[..i])| <= i && Holds(indices, times, Ranked(all[..i]))
    {
      var row := t.rows[i];
      RankedNext(all, i);
      ghost var before := Ranked(all[..i]);
      i := i + 1;
      assert all[i - 1] == Key(PatchIsShown(row, now), row.lastUpdate);
      if row.lastUpdate > 0 && now - row.lastUpdate > PATCH_LIFETIME {
        continue;
      }
      if row.active && row.sgid != 0 {
        Insert(indices, times, n, i - 1, row.lastUpdate, before);
        n := n + 1;
      }
    }
    assert all[..i] == all;
  }

  method FillPatches(t: PatchTable, indices: array<int>, n: nat, out: array<Patch>, ghost shown: seq<Entry>)
    requires t.Valid() && n == |shown| <= indices.Length && n <= out.Length
    requires forall k :: 0 <= k < n ==> indices[k] == shown[k].index && shown[k].index < PATCHES_MAX
    modifies out
    ensures forall k :: n <= k < out.Length ==> out[k] == old(out[k])
    ensures forall j :: 0 <= j < n ==> out[j] == PatchOf(t.rows[shown[j].index])
  {
    for i := 0 to n
      invariant forall k :: i <= k < out.Length ==> out[k] == old(out[k])
      invariant forall j :: 0 <= j < i ==> out[j] == PatchOf(t.rows[shown[j].index])
    {
      out[i] := PatchOf(t.rows[indices[i]]);
    }
  }

  /** The patch view at time `now`. */
  method Patches(state: Given<PatchTable>, out: array?<Patch>, capacity: int, now: int) returns (n: nat, ghost shown: seq<Entry>)
    requires state.Given? ==> state.value.Valid()
    requires out != null && capacity > 0 ==> capacity <= out.Length
    modifies out
    ensures n == |shown|
    ensures out != null ==> n <= out.Length && forall k :: n <= k < out.Length ==> out[k] == old(out[k])
    ensures state.NoPointer? || out == null || capacity <= 0 ==> n == 0
    ensures state.Given? && out != null && capacity > 0 ==>
              && Selection(shown, PatchKeys(state.value, InUse(state.value.count, PATCHES_MAX), now), capacity)
              && forall j :: 0 <= j < n ==> shown[j].index < PATCHES_MAX && out[j] == PatchOf(state.value.rows[shown[j].index])
  {
    if state.NoPointer? || out == null || capacity <= 0 {
      return 0, [];
    }
    var t := state.value;
    var indices, times := new int[PATCHES_MAX], new int[PATCHES_MAX];
    ghost var all := PatchKeys(t, InUse(t.count, PATCHES_MAX), now);
    n := RankPatches(t, now, indices, times, all);
    SelectionIsCut(all, capacity);
    if n > capacity {
      n := capacity;
    }
    shown := Ranked(all)[..n];
    assert forall k :: 0 <= k < n ==> Drawn(shown[k], all);
    FillPatches(t, indices, n, out, shown);
  }

  // --- Affiliations ---------------------------------------------------------------------

  /** The group-affiliation table and the affiliated-radio table; a zero radio is no row. */
  datatype AffiliationTable = AffiliationTable(groupRid: seq<nat>, groupTg: seq<nat>, groupSeen: seq<int>,
                                               radioRid: seq<nat>, radioSeen: seq<int>) {
    ghost predicate Valid() {
      |groupRid| == |groupTg| == |groupSeen| == GROUP_ROWS && |radioRid| == |radioSeen| == RADIO_ROWS
    }
  }

  datatype Affiliation = Affiliation(rid: nat, tg: nat, lastSeen: int)

  function Rows(groups: bool): nat {
    if groups then GROUP_ROWS else RADIO_ROWS
  }

  function AffiliationKeys(t: AffiliationTable, groups: bool): seq<Key>
    requires t.Valid()
  {
    seq(Rows(groups), i requires 0 <= i < Rows(groups) =>
      if groups then Key(t.groupRid[i] != 0 && t.groupTg[i] != 0, t.groupSeen[i])
      else Key(t.radioRid[i] != 0, t.radioSeen[i]))
  }

  function AffiliationOf(t: AffiliationTable, groups: bool, i: nat): Affiliation
    requires t.Valid() && i < Rows(groups)
  {
    if groups then Affiliation(t.groupRid[i], t.groupTg[i], t.groupSeen[i]) else Affiliation(t.radioRid[i], 0, t.radioSeen[i])
  }

  method RankAffiliations(t: AffiliationTable, groups: bool, indices: array<int>, times: array<int>, ghost all: seq<Key>)
    returns (n: nat)
    requires t.Valid() && all == AffiliationKeys(t, groups)
    requires indices != times && indices.Length == times.Length == GROUP_ROWS
    modifies indices, times
    ensures n == |Ranked(all)| <= Rows(groups) && Holds(indices, times, Ranked(all))
  {
    n := 0;
    var rids, seen := if groups then t.groupRid else t.radioRid, if groups then t.groupSeen else t.radioSeen;
    for i := 0 to Rows(groups)
      invariant n == |Ranked(all[..i])| <= i && Holds(indices, times, Ranked(all[..i]))
    {
      RankedNext(all, i);
      ghost var before := Ranked(all[..i]);
      assert all[i] == Key(rids[i] != 0 && (!groups || t.groupTg[i] != 0), seen[i]);
      if rids[i] != 0 && (!groups || t.groupTg[i] != 0) {
        Insert(indices, times, n, i, seen[i], before);
        n := n + 1;
      }
    }
    assert all[..Rows(groups)] == all;
  }

  method FillAffiliations(t: AffiliationTable, groups: bool, indices: array<int>, n: nat, out: array<Affiliation>,
                          ghost shown: seq<Entry>)
    requires t.Valid() && n == |shown| <= indices.Length && n <= out.Length
    requires forall k :: 0 <= k < n ==> indices[k] == shown[k].index && shown[k].index < Rows(groups)
    modifies out
    ensures forall k :: n <= k < out.Length ==> out[k] == old(out[k])
    ensures forall j :: 0 <= j < n ==> out[j] == AffiliationOf(t, groups, shown[j].index)
  {
    for i := 0 to n
      invariant forall k :: i <= k < out.Length ==> out[k] == old(out[k])
      invariant forall j :: 0 <= j < i ==> out[j] == AffiliationOf(t, groups, shown[j].index)
    {
      out[i] := AffiliationOf(t, groups, indices[i]);
    }
  }

  /** The group-affiliation view, or with `groups` off the affiliated-radio view. */
  method Affiliations(state: Given<AffiliationTable>, out: array?<Affiliation>, capacity: int, groups: bool)
    returns (n: nat, ghost shown: seq<Entry>)
    requires state.Given? ==> state.value.Valid()
    requires out != null && capacity > 0 ==> capacity <= out.Length
    modifies out
    ensures n == |shown|
    ensures out != null ==> n <= out.Length && forall k :: n <= k < out.Length ==> out[k] == old(out[k])
    ensures state.NoPointer? || out == null || capacity <= 0 ==> n == 0
    ensures state.Given? && out != null && capacity > 0 ==>
              && Selection(shown, AffiliationKeys(state.value, groups), capacity)
              && forall j :: 0 <= j < n ==> shown[j].index < Rows(groups)
                                            && out[j] == AffiliationOf(state.value, groups, shown[j].index)
  {
    if state.NoPointer? || out == null || capacity <= 0 {
      return 0, [];
    }
    var t := state.value;
    var indices, times := new int[GROUP_ROWS], new int[GROUP_ROWS];
    ghost var all := AffiliationKeys(t, groups);
    n := RankAffiliations(t, groups, indices, times, all);
    SelectionIsCut(all, capacity);
    if n > capacity {
      n := capacity;
    }
    shown := Ranked(all)[..n];
    assert forall k :: 0 <= k < n ==> Drawn(shown[k], all);
    FillAffiliations(t, groups, indices, n, out, shown);
  }

  // --- The views in terms of the tables -------------------------------------------------

  /** The rows shown are rows that may be shown, each once, newest first with ties in table order,
      and any other that may be shown is missing only because the view is full of no older ones.
      `shows` says which rows may be shown, `seen` how new they are. */
  ghost predicate IsView(shown: seq<Entry>, rows: nat, shows: nat -> bool, seen: nat -> int, capacity: nat) {
    && |shown| <= capacity
    && (forall j :: 0 <= j < |shown| ==> shown[j].index < rows && shows(shown[j].index) && shown[j].seen == seen(shown[j].index))
    && (forall j, k :: 0 <= j < k < |shown| ==>
          shown[j].seen > shown[k].seen || (shown[j].seen == shown[k].seen && shown[j].index < shown[k].index))
    && (forall i :: 0 <= i < rows && shows(i) && !Listed(shown, i) ==>
          |shown| == capacity && forall j :: 0 <= j < |shown| ==> shown[j].seen >= seen(i))
  }

  lemma {:induction false} SelectionIsView(shown: seq<Entry>, all: seq<Key>, capacity: nat, shows: nat -> bool, seen: nat -> int)
    requires Selection(shown, all, capacity)
    requires forall i :: 0 <= i < |all| ==> all[i].eligible == shows(i) && all[i].seen == seen(i)
    ensures IsView(shown, |all|, shows, seen, capacity)
  {
    var list: seq<Entry> :| IsNewestFirst(list, all) && shown == (if |list| > capacity then list[..capacity] else list);
    assert forall j :: 0 <= j < |list| ==> Drawn(list[j], all);
    forall i | 0 <= i < |all| && shows(i)
      ensures Listed(shown, i) || (|shown| == capacity && forall j :: 0 <= j < |shown| ==> shown[j].seen >= seen(i))
    {
      assert Listed(list, i);
      var k :| 0 <= k < |list| && list[k].index == i;
      if k < |shown| {
        assert shown[k].index == i;
      }
    }
  }

  /** The neighbour view: every row in use with a frequency, by when it was last seen. */
  lemma {:induction false} NeighborsShown(t: NeighborTable, shown: seq<Entry>, capacity: nat)
    requires t.Valid() && Selection(shown, NeighborKeys(t, InUse(t.count, NEIGHBORS_MAX)), capacity)
    ensures var rows := if t.count < 0 then 0 else if t.count < 32 then t.count else 32;
            IsView(shown, rows, (i: nat) => i < |t.rows| && t.rows[i].freq > 0, (i: nat) => if i < |t.rows| then t.rows[i].lastSeen else 0, capacity)
  {
    SelectionIsView(shown, NeighborKeys(t, InUse(t.count, NEIGHBORS_MAX)), capacity,
                    (i: nat) => i < |t.rows| && t.rows[i].freq > 0, (i: nat) => if i < |t.rows| then t.rows[i].lastSeen else 0);
  }

  /** Each shown neighbour is its row: the flag says that it is the current control channel, the
      mark that it is among the candidates in use, and the text what its flags are. */
  lemma {:induction false} NeighborFields(t: NeighborTable, row: NeighborRow, format: nat -> string)
    requires t.Valid()
    ensures var n := NeighborOf(t, row, format);
            && n.freq == row.freq && n.wacn == row.wacn && n.sysid == row.sysid && n.rfss == row.rfss && n.site == row.site
            && n.lra == row.lra && n.wacnValid == row.wacnValid && n.lraValid == row.lraValid && n.lastSeen == row.lastSeen
            && (n.currentCc <==> row.freq == t.ccFreq)
            && (n.candidate <==>
                  && t.candidates.Given? && 0 < t.candidates.value.count <= 16
                  && exists k :: 0 <= k < t.candidates.value.count && t.candidates.value.frequencies[k] == row.freq)
            && (!row.cfvaValid ==> n.cfvaText == "?") && n.cfvaText != ""
            && (row.cfvaValid && format(row.cfva) != "" ==> n.cfvaText == format(row.cfva))
            && (row.cfvaValid && format(row.cfva) == "" ==> n.cfvaText == "-")
  {
    if t.candidates.Given? && 0 < t.candidates.value.count <= 16 {
      var inUse := t.candidates.value.frequencies[..t.candidates.value.count];
      assert forall k :: 0 <= k < |inUse| ==> inUse[k] == t.candidates.value.frequencies[k];
    }
  }

  predicate PatchMayShow(row: PatchRow, now: int) {
    row.active && row.sgid != 0 && (row.lastUpdate <= 0 || now <= row.lastUpdate + 20)
  }

  /** The patch view: every active patch in use with a group, unless its last update is dated and
      more than twenty seconds old, by that update. */
  lemma {:induction false} PatchesShown(t: PatchTable, shown: seq<Entry>, capacity: nat, now: int)
    requires t.Valid() && Selection(shown, PatchKeys(t, InUse(t.count, PATCHES_MAX), now), capacity)
    ensures var rows := if t.count < 0 then 0 else if t.count < 8 then t.count else 8;
            IsView(shown, rows, (i: nat) => i < |t.rows| && PatchMayShow(t.rows[i], now),
                   (i: nat) => if i < |t.rows| then t.rows[i].lastUpdate else 0, capacity)
  {
    SelectionIsView(shown, PatchKeys(t, InUse(t.count, PATCHES_MAX), now), capacity,
                    (i: nat) => i < |t.rows| && PatchMayShow(t.rows[i], now), (i: nat) => if i < |t.rows| then t.rows[i].lastUpdate else 0);
  }

  /** Each shown patch is its row: counts capped at eight, so many members copied, zeros behind. */
  lemma {:induction false} PatchFields(row: PatchRow, k: nat)
    requires |row.groups| == PATCHES_MAX && |row.radios| == PATCHES_MAX && k < 8
    ensures var p := PatchOf(row);
            && p.sgid == row.sgid && p.isPatch == row.isPatch && p.lastSeen == row.lastUpdate
            && p.groupCount == (if row.groupCount <= 8 then row.groupCount else 8)
            && p.radioCount == (if row.radioCount <= 8 then row.radioCount else 8)
            && |p.groups| == |p.radios| == 8
            && p.groups[k] == (if k < row.groupCount then row.groups[k] else 0)
            && p.radios[k] == (if k < row.radioCount then row.radios[k] else 0)
  {
  }

  /** The affiliation views: every row with a radio, and with a talkgroup where there is one to
      have, by when it was last seen; and each shown entry is its row. */
  lemma {:induction false} AffiliationsShown(t: AffiliationTable, groups: bool, shown: seq<Entry>, capacity: nat)
    requires t.Valid() && Selection(shown, AffiliationKeys(t, groups), capacity)
    ensures groups ==>
              IsView(shown, 512, (i: nat) => i < 512 && t.groupRid[i] != 0 && t.groupTg[i] != 0, (i: nat) => if i < 512 then t.groupSeen[i] else 0, capacity)
    ensures !groups ==>
              IsView(shown, 256, (i: nat) => i < 256 && t.radioRid[i] != 0, (i: nat) => if i < 256 then t.radioSeen[i] else 0, capacity)
    ensures forall i: nat {:trigger AffiliationOf(t, true, i)} :: i < 512 ==>
              AffiliationOf(t, true, i) == Affiliation(t.groupRid[i], t.groupTg[i], t.groupSeen[i])
    ensures forall i: nat {:trigger AffiliationOf(t, false, i)} :: i < 256 ==>
              AffiliationOf(t, false, i) == Affiliation(t.radioRid[i], 0, t.radioSeen[i])
  {
    if groups {
      SelectionIsView(shown, AffiliationKeys(t, groups), capacity,
                      (i: nat) => i < 512 && t.groupRid[i] != 0 && t.groupTg[i] != 0, (i: nat) => if i < 512 then t.groupSeen[i] else 0);
    } else {
      SelectionIsView(shown, AffiliationKeys(t, groups), capacity,
                      (i: nat) => i < 256 && t.radioRid[i] != 0, (i: nat) => if i < 256 then t.radioSeen[i] else 0);
    }
  }
}
