/** The plays table: duplicate highlighting, the row selection and the copy, paste and
    bulk-delete buttons that act on it. */
module PlaysTable {
  import opened Types
  import opened Wrappers
  import opened SeqOps
  import opened App

  // ---------------------------------------------------------------------------
  // Duplicate bet numbers

  /** The bet numbers of the rows, in order. */
  function Bets(plays: seq<Play>): (r: seq<string>)
    ensures |r| == |plays|
    ensures forall i :: 0 <= i < |plays| ==> r[i] == plays[i].betNumber
  {
    seq(|plays|, i requires 0 <= i < |plays| => plays[i].betNumber)
  }

  /** A bet number is highlighted when it is non-empty and more than one row carries it. */
  predicate IsDuplicate(plays: seq<Play>, b: string) {
    b != "" && Count(Bets(plays), b) > 1
  }

  /** The `duplicateBetNumbers` memo: count the non-empty bets in a map, then keep the
      ones counted more than once. */
  method DuplicateBetNumbers(plays: seq<Play>) returns (dups: set<string>)
    ensures forall b :: b in dups <==> IsDuplicate(plays, b)
  {
    var bets := Bets(plays);
    var counts: map<string, nat> := map[];
    var i := 0;
    assert bets[..0] == [];
    assert Tallies(counts, bets[..0]);
    while i < |plays|
      invariant 0 <= i <= |plays|
      invariant Tallies(counts, bets[..i])
    {
      var b := plays[i].betNumber;
      assert bets[..i + 1] == bets[..i] + [b];
      var next := if b != "" then counts[b := (if b in counts then counts[b] else 0) + 1] else counts;
      TalliesStep(counts, bets[..i], b, next);
      counts := next;
      i := i + 1;
      assert Tallies(counts, bets[..i]);
    }
    assert bets[..|plays|] == bets;
    dups := set b | b in counts && counts[b] > 1;
  }

  /** `counts` holds, for every non-empty string of `seen`, how often it occurs there. */
  ghost predicate Tallies(counts: map<string, nat>, seen: seq<string>) {
    forall b :: (b in counts <==> b != "" && Count(seen, b) > 0) && (b in counts ==> counts[b] == Count(seen, b))
  }

  /** `counts.set(b, (counts.get(b) || 0) + 1)` for a non-empty `b` keeps the tally. */
  lemma TalliesStep(counts: map<string, nat>, seen: seq<string>, b: string, next: map<string, nat>)
    requires Tallies(counts, seen)
    requires next == if b != "" then counts[b := (if b in counts then counts[b] else 0) + 1] else counts
    ensures Tallies(next, seen + [b])
  {
    CountAppend(seen, [b]);
    forall x ensures (x in next <==> x != "" && Count(seen + [b], x) > 0)
                  && (x in next ==> next[x] == Count(seen + [b], x)) {
      assert Count([b], x) == if x == b then 1 else 0;
    }
  }

  lemma CountAppend<T>(s: seq<T>, t: seq<T>)
    ensures forall x :: Count(s + t, x) == Count(s, x) + Count(t, x)
  {
    assert multiset(s + t) == multiset(s) + multiset(t);
  }

  /** A bet is a duplicate exactly when two different rows carry it. */
  lemma DuplicateIffTwoRows(plays: seq<Play>, b: string)
    ensures IsDuplicate(plays, b) <==>
      b != "" && exists i, j :: 0 <= i < j < |plays| && plays[i].betNumber == b && plays[j].betNumber == b
  {
    var bets := Bets(plays);
    CountTwice(bets, b);
    if b != "" && Count(bets, b) > 1 {
      var i, j :| 0 <= i < j < |bets| && bets[i] == b && bets[j] == b;
      assert plays[i].betNumber == b && plays[j].betNumber == b;
    }
  }

  /** An element counts more than once exactly when it sits at two positions. */
  lemma {:induction false} CountTwice<T>(s: seq<T>, x: T)
    ensures Count(s, x) > 1 <==> exists i, j :: 0 <= i < j < |s| && s[i] == x && s[j] == x
  {
    if s != [] {
      var t := s[1..];
      CountTwice(t, x);
      if Count(s, x) > 1 {
        if s[0] == x {
          var j :| 0 <= j < |t| && t[j] == x;
          assert s[0] == x && s[j + 1] == x;
        } else {
          var i, j :| 0 <= i < j < |t| && t[i] == x && t[j] == x;
          assert s[i + 1] == x && s[j + 1] == x;
        }
      }
      if exists i, j :: 0 <= i < j < |s| && s[i] == x && s[j] == x {
        var i, j :| 0 <= i < j < |s| && s[i] == x && s[j] == x;
        assert t[j - 1] == x;
        if i > 0 {
          assert t[i - 1] == x;
        }
      }
    }
  }

  /** The empty bet of a fresh row is never highlighted, however many rows are blank. */
  lemma BlankNeverDuplicate(plays: seq<Play>)
    ensures !IsDuplicate(plays, "")
  {
  }

  /** Adding a row whose bet some row already carries highlights that bet. */
  lemma DuplicateAfterAppend(plays: seq<Play>, p: Play, k: nat)
    requires k < |plays| && p.betNumber != "" && plays[k].betNumber == p.betNumber
    ensures IsDuplicate(plays + [p], p.betNumber)
  {
    var all := plays + [p];
    assert all[k].betNumber == p.betNumber && all[|plays|].betNumber == p.betNumber;
    DuplicateIffTwoRows(all, p.betNumber);
  }

  // ---------------------------------------------------------------------------
  // Lookup by id

  /** `plays.find(p => p.id === id)`: the first row with that id. */
  function FindById(plays: seq<Play>, id: Id): (r: Option<Play>)
    ensures r.None? <==> id !in Ids(plays)
    ensures r.Some? ==> r.value in plays && r.value.id == id
  {
    if plays == [] then None
    else if plays[0].id == id then Some(plays[0])
    else
      assert Ids(plays) == [plays[0].id] + Ids(plays[1..]);
      FindById(plays[1..], id)
  }

  /** The row found comes before every other row with that id. */
  lemma {:induction false} FindByIdFirst(plays: seq<Play>, id: Id)
    requires id in Ids(plays)
    ensures exists k :: 0 <= k < |plays| && plays[k] == FindById(plays, id).value
                     && forall j :: 0 <= j < k ==> plays[j].id != id
  {
    if plays[0].id == id {
      assert plays[0] == FindById(plays, id).value;
    } else {
      assert Ids(plays) == [plays[0].id] + Ids(plays[1..]);
      FindByIdFirst(plays[1..], id);
      var k :| 0 <= k < |plays[1..]| && plays[1..][k] == FindById(plays[1..], id).value
        && forall j :: 0 <= j < k ==> plays[1..][j].id != id;
      assert plays[k + 1] == FindById(plays, id).value;
      forall j | 0 <= j < k + 1 ensures plays[j].id != id {
        if j > 0 {
          assert plays[j] == plays[1..][j - 1];
        }
      }
    }
  }

  /** With distinct ids the row found is the one carrying the id. */
  lemma FindByIdUnique(plays: seq<Play>, id: Id, k: nat)
    requires IdsDistinct(plays) && k < |plays| && plays[k].id == id
    ensures FindById(plays, id) == Some(plays[k])
  {
    assert Ids(plays)[k] == id;
    FindByIdFirst(plays, id);
    var r := FindById(plays, id);
    var k' :| 0 <= k' < |plays| && plays[k'] == r.value && forall j :: 0 <= j < k' ==> plays[j].id != id;
    assert Ids(plays)[k'] == id;
  }

  /** The amounts of a row, as the copy button takes them. */
  function AmountsOf(p: Play): (a: Amounts)
    ensures a.straight == p.straightAmount && a.box == p.boxAmount && a.combo == p.comboAmount
  {
    Amounts(p.straightAmount, p.boxAmount, p.comboAmount)
  }

  // ---------------------------------------------------------------------------
  // Selection

  /** Every selected id is some row's id. */
  predicate SelectionCurrent(sel: seq<Id>, plays: seq<Play>) {
    forall k :: 0 <= k < |sel| ==> sel[k] in Ids(plays)
  }

  /** No selected id is any row's id. */
  predicate AllStale(sel: seq<Id>, plays: seq<Play>) {
    forall k :: 0 <= k < |sel| ==> sel[k] !in Ids(plays)
  }

  /** The header checkbox: ticked when there are rows and the selection is as long as
      the table. It compares lengths only. */
  predicate AllSelectedByCount(sel: seq<Id>, plays: seq<Play>) {
    |plays| > 0 && |sel| == |plays|
  }

  /** When the selection holds distinct, current ids, the length test means what it is
      meant to: every row is selected. */
  lemma AllSelectedMeansEveryRow(sel: seq<Id>, plays: seq<Play>)
    requires Distinct(sel) && IdsDistinct(plays) && SelectionCurrent(sel, plays)
    ensures AllSelectedByCount(sel, plays) <==> |plays| > 0 && forall p :: p in plays ==> p.id in sel
  {
    var ids := Ids(plays);
    var s, t := set x | x in sel, set x | x in ids;
    DistinctCard(sel);
    DistinctCard(ids);
    assert s <= t by {
      forall x | x in s ensures x in t {
        var k :| 0 <= k < |sel| && sel[k] == x;
      }
    }
    if AllSelectedByCount(sel, plays) {
      assert |s| == |t|;
      SubsetSameSize(s, t);
      forall p | p in plays ensures p.id in sel {
        var k :| 0 <= k < |plays| && plays[k] == p;
        assert ids[k] == p.id;
        assert p.id in t;
      }
    }
    if |plays| > 0 && forall p :: p in plays ==> p.id in sel {
      assert t <= s by {
        forall x | x in t ensures x in s {
          var k :| 0 <= k < |ids| && ids[k] == x;
          assert plays[k] in plays;
        }
      }
      assert s == t;
      assert |sel| == |plays|;
    }
  }

  lemma SubsetSameSize<T>(s: set<T>, t: set<T>)
    requires s <= t && |s| == |t|
    ensures s == t
  {
    if s != t {
      var x :| x in t && x !in s;
      assert s <= t - {x};
      assert |t - {x}| == |t| - 1;
      SubsetSize(s, t - {x});
    }
  }

  lemma SubsetSize<T>(s: set<T>, t: set<T>)
    requires s <= t
    ensures |s| <= |t|
  {
    assert t == s + (t - s);
  }

  /** The length test can hold with stale ids: one row with id 1 and a leftover
      selection of id 2 tick the header box although row 1 is not selected. */
  lemma AllSelectedByCountStale(p: Play)
    requires p.id == 1
    ensures AllSelectedByCount([2], [p]) && p.id !in [2]
  {
  }

  class TableSelection {
    /** The ids of the ticked rows, in the order they were ticked. */
    var selectedIds: seq<Id>
    /** The amounts the copy button took, if any. */
    var copied: Option<Amounts>

    constructor ()
      ensures selectedIds == [] && copied == None
    {
      selectedIds, copied := [], None;
    }

    /** A row's checkbox: untick a selected id, tick an unselected one. */
    method ToggleSelect(id: Id)
      modifies this`selectedIds
      ensures selectedIds == Toggle(old(selectedIds), id)
      ensures id in selectedIds <==> id !in old(selectedIds)
      ensures Distinct(old(selectedIds)) ==> Distinct(selectedIds)
    {
      if Distinct(selectedIds) {
        ToggleDistinct(selectedIds, id);
      }
      selectedIds := Toggle(selectedIds, id);
    }

    /** The header checkbox: every row's id when ticked, nothing when unticked. */
    method SelectAll(checked: bool, plays: seq<Play>)
      modifies this`selectedIds
      ensures selectedIds == if checked then Ids(plays) else []
      ensures checked ==> (AllSelectedByCount(selectedIds, plays) <==> |plays| > 0)
      ensures IdsDistinct(plays) ==> Distinct(selectedIds)
    {
      selectedIds := if checked then Ids(plays) else [];
    }

    /** The effect that drops a selection none of whose ids is still a row. */
    method CleanupStale(plays: seq<Play>)
      modifies this`selectedIds
      ensures selectedIds == if |old(selectedIds)| > 0 && AllStale(old(selectedIds), plays) then [] else old(selectedIds)
    {
      if |selectedIds| > 0 && AllStale(selectedIds, plays) {
        selectedIds := [];
      }
    }

    /** The copy button: nothing without a selection; otherwise the amounts of the row
        carrying the last selected id, when there is one. */
    method Copy(plays: seq<Play>) returns (ok: bool)
      modifies this`copied
      ensures ok <==> |selectedIds| > 0 && FindById(plays, selectedIds[|selectedIds| - 1]).Some?
      ensures copied == if ok then Some(AmountsOf(FindById(plays, selectedIds[|selectedIds| - 1]).value)) else old(copied)
    {
      if |selectedIds| == 0 {
        ok := false;
        return;
      }
      var last := FindById(plays, selectedIds[|selectedIds| - 1]);
      if last.Some? {
        copied := Some(AmountsOf(last.value));
        ok := true;
      } else {
        ok := false;
      }
    }

    /** The paste button: the copied amounts and the selection to hand to the session,
        or nothing when either is missing. */
    method Paste() returns (request: Option<(Amounts, seq<Id>)>)
      ensures request.Some? <==> copied.Some? && |selectedIds| > 0
      ensures request.Some? ==> request.value == (copied.value, selectedIds)
    {
      if copied.None? || |selectedIds| == 0 {
        request := None;
      } else {
        request := Some((copied.value, selectedIds));
      }
    }

    /** The delete button: with a selection and the user's confirmation, the ids to
        remove; the selection then clears. */
    method BulkDelete(confirmed: bool) returns (removed: Option<seq<Id>>)
      modifies this`selectedIds
      ensures removed.Some? <==> |old(selectedIds)| > 0 && confirmed
      ensures removed.Some? ==> removed.value == old(selectedIds) && selectedIds == []
      ensures removed.None? ==> selectedIds == old(selectedIds)
    {
      if |selectedIds| == 0 || !confirmed {
        removed := None;
        return;
      }
      removed := Some(selectedIds);
      selectedIds := [];
    }

    /** `isAllSelected`. */
    predicate IsAllSelected(plays: seq<Play>)
      reads this
    {
      AllSelectedByCount(selectedIds, plays)
    }
  }
}
