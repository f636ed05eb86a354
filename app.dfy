/** The session of the bet-entry screen: the play list and its handlers, the track and
    date selection, the theme, and the modal flags, with the grand total they price. */
module App {
  import opened Types
  import opened Wrappers
  import opened SeqOps
  import opened Helpers
  import opened Constants

  // ---------------------------------------------------------------------------
  // Rows and their ids

  /** The ids of the rows, in list order. */
  function Ids(plays: seq<Play>): (r: seq<Id>)
    ensures |r| == |plays|
    ensures forall i :: 0 <= i < |plays| ==> r[i] == plays[i].id
  {
    if plays == [] then [] else [plays[0].id] + Ids(plays[1..])
  }

  lemma {:induction false} IdsAppend(a: seq<Play>, b: seq<Play>)
    ensures Ids(a + b) == Ids(a) + Ids(b)
  {
    assert |Ids(a + b)| == |Ids(a) + Ids(b)|;
    forall k | 0 <= k < |a + b| ensures Ids(a + b)[k] == (Ids(a) + Ids(b))[k] {
      if k < |a| {
        assert (a + b)[k] == a[k];
      } else {
        assert (a + b)[k] == b[k - |a|];
      }
    }
  }

  /** No two rows share an id. */
  predicate IdsDistinct(plays: seq<Play>) {
    Distinct(Ids(plays))
  }

  /** The row "Add Play" appends: empty bet, unset mode, no amounts. */
  function BlankPlay(id: Id): Play {
    Play(id, "", Unset, None, None, None)
  }

  // ---------------------------------------------------------------------------
  // Removal

  /** `plays.filter(p => !ids.includes(p.id))`. */
  function RemoveIds(plays: seq<Play>, ids: seq<Id>): (r: seq<Play>)
    ensures forall p :: p in r <==> p in plays && p.id !in ids
    ensures |r| <= |plays|
  {
    if plays == [] then []
    else (if plays[0].id in ids then [] else [plays[0]]) + RemoveIds(plays[1..], ids)
  }

  /** The kept rows keep their relative order: filtering distributes over `+`. */
  lemma {:induction false} RemoveIdsAppend(a: seq<Play>, b: seq<Play>, ids: seq<Id>)
    ensures RemoveIds(a + b, ids) == RemoveIds(a, ids) + RemoveIds(b, ids)
  {
    if a == [] {
      assert a + b == b;
    } else {
      assert (a + b)[1..] == a[1..] + b;
      RemoveIdsAppend(a[1..], b, ids);
    }
  }

  /** When no id matches, the list is unchanged. */
  lemma {:induction false} RemoveIdsNoMatch(plays: seq<Play>, ids: seq<Id>)
    requires forall i :: 0 <= i < |plays| ==> plays[i].id !in ids
    ensures RemoveIds(plays, ids) == plays
  {
    if plays != [] {
      RemoveIdsNoMatch(plays[1..], ids);
    }
  }

  /** Dropping the head of a list with distinct ids leaves distinct ids. */
  lemma TailIdsDistinct(plays: seq<Play>)
    requires plays != [] && IdsDistinct(plays)
    ensures IdsDistinct(plays[1..])
    ensures plays[0].id !in Ids(plays[1..])
  {
    var s, t := Ids(plays), Ids(plays[1..]);
    assert s == [plays[0].id] + t;
    forall i, j | 0 <= i < j < |t| ensures t[i] != t[j] {
      assert t[i] == s[i + 1] && t[j] == s[j + 1];
    }
    forall k | 0 <= k < |t| ensures t[k] != plays[0].id {
      assert t[k] == s[k + 1];
    }
  }

  /** An id is in the list of ids exactly when some row carries it. */
  lemma InIds(plays: seq<Play>, id: Id)
    ensures id in Ids(plays) <==> exists p :: p in plays && p.id == id
  {
    if id in Ids(plays) {
      var k :| 0 <= k < |plays| && Ids(plays)[k] == id;
      assert plays[k] in plays;
    }
    if exists p :: p in plays && p.id == id {
      var p :| p in plays && p.id == id;
      var k :| 0 <= k < |plays| && plays[k] == p;
      assert Ids(plays)[k] == id;
    }
  }

  /** Removing rows keeps the remaining ids distinct. */
  lemma {:induction false} RemoveIdsDistinct(plays: seq<Play>, ids: seq<Id>)
    requires IdsDistinct(plays)
    ensures IdsDistinct(RemoveIds(plays, ids))
  {
    if plays != [] {
      var rest := plays[1..];
      TailIdsDistinct(plays);
      RemoveIdsDistinct(rest, ids);
      var tail := RemoveIds(rest, ids);
      if plays[0].id !in ids {
        InIds(rest, plays[0].id);
        InIds(tail, plays[0].id);
        ConsDistinct(plays[0], tail);
      }
    }
  }

  lemma ConsDistinct(p: Play, rows: seq<Play>)
    requires IdsDistinct(rows) && p.id !in Ids(rows)
    ensures IdsDistinct([p] + rows)
  {
    var s, t := Ids([p] + rows), Ids(rows);
    assert s == [p.id] + t;
  }

  /** Every listed id is gone after removal. */
  lemma RemoveIdsGone(plays: seq<Play>, ids: seq<Id>, id: Id)
    requires id in ids
    ensures id !in Ids(RemoveIds(plays, ids))
  {
    InIds(RemoveIds(plays, ids), id);
  }

  // ---------------------------------------------------------------------------
  // Editing one row

  /** The field an edit writes, with its new value. `gameMode` may be written like any
      other field; `id` edits are not part of this model. */
  datatype Field =
    | BetNumber(bet: string)
    | GameMode(mode: string)
    | Straight(amount: Option<real>)
    | Box(amount: Option<real>)
    | Combo(amount: Option<real>)

  /** `{ ...p, [field]: value }`. */
  function WithField(p: Play, f: Field): Play {
    match f
    case BetNumber(b) => p.(betNumber := b)
    case GameMode(m) => p.(gameMode := m)
    case Straight(a) => p.(straightAmount := a)
    case Box(a) => p.(boxAmount := a)
    case Combo(a) => p.(comboAmount := a)
  }

  /** `plays.map(p => p.id === id ? { ...p, [field]: value } : p)`. */
  function SetField(plays: seq<Play>, id: Id, f: Field): (r: seq<Play>)
    ensures |r| == |plays|
    ensures forall i :: 0 <= i < |plays| ==> r[i] == if plays[i].id == id then WithField(plays[i], f) else plays[i]
  {
    if plays == [] then []
    else [if plays[0].id == id then WithField(plays[0], f) else plays[0]] + SetField(plays[1..], id, f)
  }

  /** The first row with the id gets the mode its bet number classifies as; `find`
      returns that first row and the handler assigns its `gameMode` in place. */
  function ReclassifyFirst(plays: seq<Play>, id: Id, tracks: seq<string>): (r: seq<Play>)
    ensures |r| == |plays|
    ensures forall i :: 0 <= i < |plays| ==> r[i].id == plays[i].id
  {
    if plays == [] then []
    else if plays[0].id == id then
      [plays[0].(gameMode := DetermineGameMode(plays[0].betNumber, tracks))] + plays[1..]
    else [plays[0]] + ReclassifyFirst(plays[1..], id, tracks)
  }

  /** `handleUpdatePlay`: the edit, then the reclassification when the bet number was
      the field written. */
  function UpdatePlay(plays: seq<Play>, id: Id, f: Field, tracks: seq<string>): (r: seq<Play>)
    ensures |r| == |plays|
    ensures forall i :: 0 <= i < |plays| ==> r[i].id == plays[i].id
  {
    var mapped := SetField(plays, id, f);
    if f.BetNumber? then ReclassifyFirst(mapped, id, tracks) else mapped
  }

  /** How an edited row relates to the row before the edit, field by field: only the
      written field changes, except that a bet-number edit also recomputes the mode. */
  predicate EditedAs(before: Play, after: Play, f: Field, tracks: seq<string>) {
    && after.id == before.id
    && after.betNumber == (if f.BetNumber? then f.bet else before.betNumber)
    && after.gameMode == (if f.BetNumber? then DetermineGameMode(f.bet, tracks)
                          else if f.GameMode? then f.mode else before.gameMode)
    && after.straightAmount == (if f.Straight? then f.amount else before.straightAmount)
    && after.boxAmount == (if f.Box? then f.amount else before.boxAmount)
    && after.comboAmount == (if f.Combo? then f.amount else before.comboAmount)
  }

  /** With distinct ids, the first row with the id is the only one. */
  lemma {:induction false} ReclassifyFirstAt(plays: seq<Play>, id: Id, tracks: seq<string>, i: nat)
    requires IdsDistinct(plays) && i < |plays|
    ensures ReclassifyFirst(plays, id, tracks)[i]
         == if plays[i].id == id then plays[i].(gameMode := DetermineGameMode(plays[i].betNumber, tracks))
            else plays[i]
  {
    var rest := plays[1..];
    assert Ids(plays) == [plays[0].id] + Ids(rest);
    if plays[0].id == id {
      if i > 0 {
        assert Ids(plays)[i] != Ids(plays)[0];
      }
    } else if i > 0 {
      assert IdsDistinct(rest) by {
        var t := Ids(rest);
        forall a, b | 0 <= a < b < |t| ensures t[a] != t[b] {
          assert t[a] == Ids(plays)[a + 1] && t[b] == Ids(plays)[b + 1];
        }
      }
      ReclassifyFirstAt(rest, id, tracks, i - 1);
    }
  }

  /** An edit changes only the row with the id, and in it only what `EditedAs` allows. */
  lemma UpdatePlayAt(plays: seq<Play>, id: Id, f: Field, tracks: seq<string>, i: nat)
    requires IdsDistinct(plays) && i < |plays|
    ensures |UpdatePlay(plays, id, f, tracks)| == |plays|
    ensures plays[i].id != id ==> UpdatePlay(plays, id, f, tracks)[i] == plays[i]
    ensures plays[i].id == id ==> EditedAs(plays[i], UpdatePlay(plays, id, f, tracks)[i], f, tracks)
  {
    var mapped := SetField(plays, id, f);
    assert Ids(mapped) == Ids(plays);
    if f.BetNumber? {
      ReclassifyFirstAt(mapped, id, tracks, i);
    }
  }

  /** An edit for an id no row carries changes nothing. */
  lemma {:induction false} UpdatePlayMissing(plays: seq<Play>, id: Id, f: Field, tracks: seq<string>)
    requires id !in Ids(plays)
    ensures UpdatePlay(plays, id, f, tracks) == plays
  {
    var mapped := SetField(plays, id, f);
    assert mapped == plays;
    if f.BetNumber? {
      ReclassifyFirstMissing(mapped, id, tracks);
    }
  }

  lemma {:induction false} ReclassifyFirstMissing(plays: seq<Play>, id: Id, tracks: seq<string>)
    requires id !in Ids(plays)
    ensures ReclassifyFirst(plays, id, tracks) == plays
  {
    if plays != [] {
      assert Ids(plays)[0] == plays[0].id;
      assert Ids(plays) == [plays[0].id] + Ids(plays[1..]);
      ReclassifyFirstMissing(plays[1..], id, tracks);
    }
  }

  // ---------------------------------------------------------------------------
  // Pasting amounts

  /** `pasted ?? current`: a pasted `null` keeps the row's own amount. */
  function Overwrite(pasted: Option<real>, current: Option<real>): Option<real> {
    if pasted.Some? then pasted else current
  }

  /** `handlePasteAmounts`: the selected rows take the non-null copied amounts. */
  function PasteAmounts(plays: seq<Play>, a: Amounts, ids: seq<Id>): (r: seq<Play>)
    ensures |r| == |plays|
    ensures forall i :: 0 <= i < |plays| ==>
      && r[i].id == plays[i].id && r[i].betNumber == plays[i].betNumber
      && r[i].gameMode == plays[i].gameMode
    ensures forall i :: 0 <= i < |plays| && plays[i].id !in ids ==> r[i] == plays[i]
    ensures forall i :: 0 <= i < |plays| && plays[i].id in ids ==>
      && r[i].straightAmount == (if a.straight.Some? then a.straight else plays[i].straightAmount)
      && r[i].boxAmount == (if a.box.Some? then a.box else plays[i].boxAmount)
      && r[i].comboAmount == (if a.combo.Some? then a.combo else plays[i].comboAmount)
  {
    if plays == [] then []
    else
      var p := plays[0];
      var q := if p.id in ids then
                 p.(straightAmount := Overwrite(a.straight, p.straightAmount),
                    boxAmount := Overwrite(a.box, p.boxAmount),
                    comboAmount := Overwrite(a.combo, p.comboAmount))
               else p;
      [q] + PasteAmounts(plays[1..], a, ids)
  }

  /** Pasting the same amounts twice is pasting them once. */
  lemma PasteIdempotent(plays: seq<Play>, a: Amounts, ids: seq<Id>)
    ensures PasteAmounts(PasteAmounts(plays, a, ids), a, ids) == PasteAmounts(plays, a, ids)
  {
    var once := PasteAmounts(plays, a, ids);
    var twice := PasteAmounts(once, a, ids);
    forall i | 0 <= i < |plays| ensures twice[i] == once[i] {
    }
  }

  /** Amounts that are all null change nothing. */
  lemma PasteNothing(plays: seq<Play>, ids: seq<Id>)
    ensures PasteAmounts(plays, Amounts(None, None, None), ids) == plays
  {
    var r := PasteAmounts(plays, Amounts(None, None, None), ids);
    forall i | 0 <= i < |plays| ensures r[i] == plays[i] {
    }
  }

  // ---------------------------------------------------------------------------
  // Bulk adds

  /** The wizard's rows with their fresh ids; the mode each came with is kept. */
  function FromWizard(wps: seq<WizardPlay>, ids: seq<Id>): (r: seq<Play>)
    requires |ids| == |wps|
    ensures |r| == |wps| && Ids(r) == ids
    ensures forall i :: 0 <= i < |wps| ==>
      && r[i].betNumber == wps[i].betNumber && r[i].gameMode == wps[i].gameMode
      && r[i].straightAmount == wps[i].straight && r[i].boxAmount == wps[i].box
      && r[i].comboAmount == wps[i].combo
  {
    if wps == [] then []
    else
      var w := wps[0];
      [Play(ids[0], w.betNumber, w.gameMode, w.straight, w.box, w.combo)] + FromWizard(wps[1..], ids[1..])
  }

  /** The rows read from a ticket image with their fresh ids, classified under the
      current tracks. */
  function FromOcr(ops: seq<OcrResult>, ids: seq<Id>, tracks: seq<string>): (r: seq<Play>)
    requires |ids| == |ops|
    ensures |r| == |ops| && Ids(r) == ids
    ensures forall i :: 0 <= i < |ops| ==>
      && r[i].betNumber == ops[i].betNumber
      && r[i].gameMode == DetermineGameMode(ops[i].betNumber, tracks)
      && r[i].straightAmount == ops[i].straightAmount && r[i].boxAmount == ops[i].boxAmount
      && r[i].comboAmount == ops[i].comboAmount
  {
    if ops == [] then []
    else
      var o := ops[0];
      [Play(ids[0], o.betNumber, DetermineGameMode(o.betNumber, tracks), o.straightAmount, o.boxAmount, o.comboAmount)]
        + FromOcr(ops[1..], ids[1..], tracks)
  }

  /** The wizard path does not re-check modes: a two-digit row labelled Pulito stays
      Pulito under a Santo Domingo selection, where the ticket-image path files the same
      bet as RD-Quiniela. */
  lemma WizardKeepsStaleMode(wp: WizardPlay, ocr: OcrResult, id: Id, tracks: seq<string>)
    requires IsSd(tracks) && wp.gameMode == Pulito && ocr.betNumber == wp.betNumber
    requires |DigitsOnly(wp.betNumber)| == 2 && !IsPaleShape(CleanBet(wp.betNumber))
    ensures FromWizard([wp], [id])[0].gameMode == Pulito
    ensures FromOcr([ocr], [id], tracks)[0].gameMode == RdQuiniela
  {
    ModeCharacterization(wp.betNumber, tracks);
  }

  /** Adding rows with fresh, distinct ids keeps the ids distinct. */
  lemma AppendFreshDistinct(plays: seq<Play>, added: seq<Play>)
    requires IdsDistinct(plays) && Distinct(Ids(added))
    requires forall k :: 0 <= k < |added| ==> added[k].id !in Ids(plays)
    ensures IdsDistinct(plays + added)
  {
    IdsAppend(plays, added);
    var a, b := Ids(plays), Ids(added);
    forall i, j | 0 <= i < j < |a + b| ensures (a + b)[i] != (a + b)[j] {
      if j >= |a| && i < |a| {
        assert (a + b)[j] == b[j - |a|] == added[j - |a|].id;
      }
    }
  }

  // ---------------------------------------------------------------------------
  // Totals

  /** The total of one row. */
  function PlayTotal(p: Play): real {
    RowTotal(p.betNumber, p.gameMode, p.straightAmount, p.boxAmount, p.comboAmount)
  }

  /** `plays.reduce((sum, play) => sum + rowTotal(play), 0)`, added left to right. */
  function PlaysTotal(plays: seq<Play>): real {
    if plays == [] then 0.0 else PlaysTotal(plays[..|plays| - 1]) + PlayTotal(plays[|plays| - 1])
  }

  /** The sum splits over concatenation. */
  lemma {:induction false} PlaysTotalAppend(a: seq<Play>, b: seq<Play>)
    ensures PlaysTotal(a + b) == PlaysTotal(a) + PlaysTotal(b)
  {
    if b == [] {
      assert a + b == a;
    } else {
      var c := b[..|b| - 1];
      assert (a + b)[..|a + b| - 1] == a + c;
      assert (a + b)[|a + b| - 1] == b[|b| - 1];
      PlaysTotalAppend(a, c);
    }
  }

  /** All stakes of a row are non-negative. */
  predicate StakesNonNegative(p: Play) {
    NonNegative(p.straightAmount) && NonNegative(p.boxAmount) && NonNegative(p.comboAmount)
  }

  lemma {:induction false} PlaysTotalNonNegative(plays: seq<Play>)
    requires forall i :: 0 <= i < |plays| ==> StakesNonNegative(plays[i])
    ensures PlaysTotal(plays) >= 0.0
  {
    if plays != [] {
      var last := plays[|plays| - 1];
      PlaysTotalNonNegative(plays[..|plays| - 1]);
      RowTotalNonNegative(last.betNumber, last.gameMode, last.straightAmount, last.boxAmount, last.comboAmount);
    }
  }

  /** The track multiplier: the selected tracks other than "Venezuela", counted with
      repetition, or 1 when there are none. */
  function TrackMultiplier(tracks: seq<string>): (m: nat)
    ensures m >= 1
    ensures |tracks| > Count(tracks, "Venezuela") ==> m == |tracks| - Count(tracks, "Venezuela")
    ensures |tracks| == Count(tracks, "Venezuela") ==> m == 1
  {
    var n := |RemoveAll(tracks, "Venezuela")|;
    if n == 0 then 1 else n
  }

  /** The grand total: the row totals times the track multiplier (one day). The
      product is written as repeated addition; `GrandTotalIsProduct` states it as a
      product. */
  function GrandTotal(plays: seq<Play>, tracks: seq<string>): real {
    Scale(PlaysTotal(plays), TrackMultiplier(tracks))
  }

  lemma GrandTotalIsProduct(plays: seq<Play>, tracks: seq<string>, total: real, m: nat)
    requires total == PlaysTotal(plays) && m == TrackMultiplier(tracks)
    ensures GrandTotal(plays, tracks) == total * (m as real)
  {
    ScaleIsProduct(total, m);
  }

  /** Selecting or deselecting "Venezuela" never changes the multiplier. */
  lemma VenezuelaIsFree(tracks: seq<string>)
    ensures TrackMultiplier(tracks + ["Venezuela"]) == TrackMultiplier(tracks)
    ensures TrackMultiplier(RemoveAll(tracks, "Venezuela")) == TrackMultiplier(tracks)
  {
    assert multiset(tracks + ["Venezuela"]) == multiset(tracks) + multiset{"Venezuela"};
  }

  /** The start-up selection, New York Evening and Venezuela, has multiplier 1. */
  lemma DefaultTracksMultiplier()
    ensures TrackMultiplier(DefaultTracks) == 1
  {
    assert DefaultTracks == ["New York Evening"] + ["Venezuela"];
    VenezuelaIsFree(["New York Evening"]);
    assert "New York Evening" != "Venezuela";
  }

  /** With non-negative stakes the grand total is non-negative. */
  lemma GrandTotalNonNegative(plays: seq<Play>, tracks: seq<string>)
    requires forall i :: 0 <= i < |plays| ==> StakesNonNegative(plays[i])
    ensures GrandTotal(plays, tracks) >= 0.0
  {
    PlaysTotalNonNegative(plays);
    ScaleNonNegative(PlaysTotal(plays), TrackMultiplier(tracks));
  }

  /** The grand total splits over the rows. */
  lemma GrandTotalAppend(a: seq<Play>, b: seq<Play>, tracks: seq<string>)
    ensures GrandTotal(a + b, tracks) == GrandTotal(a, tracks) + GrandTotal(b, tracks)
  {
    PlaysTotalAppend(a, b);
    ScaleAdd(PlaysTotal(a), PlaysTotal(b), TrackMultiplier(tracks));
  }

  /** A blank row adds nothing to the grand total. */
  lemma BlankPlayCostsNothing(plays: seq<Play>, id: Id, tracks: seq<string>)
    ensures GrandTotal(plays + [BlankPlay(id)], tracks) == GrandTotal(plays, tracks)
  {
    var blank := [BlankPlay(id)];
    assert PlaysTotal(blank) == 0.0 by {
      assert blank[..0] == [];
    }
    PlaysTotalAppend(plays, blank);
  }

  // ---------------------------------------------------------------------------
  // The ticket gate

  /** At least one row, and every row has a bet number and a mode other than "-". */
  predicate TicketReady(plays: seq<Play>) {
    |plays| > 0 && forall i :: 0 <= i < |plays| ==> plays[i].betNumber != "" && plays[i].gameMode != Unset
  }

  /** A freshly added blank row blocks the ticket until it is filled in. */
  lemma BlankPlayBlocksTicket(plays: seq<Play>, id: Id)
    ensures !TicketReady(plays + [BlankPlay(id)])
  {
    assert (plays + [BlankPlay(id)])[|plays|] == BlankPlay(id);
  }

  /** Rows classified from non-empty bet numbers that the classifier recognises are
      ticket-ready. */
  lemma OcrRowsTicketReady(ops: seq<OcrResult>, ids: seq<Id>, tracks: seq<string>)
    requires |ids| == |ops| && |ops| > 0
    requires forall i :: 0 <= i < |ops| ==> DetermineGameMode(ops[i].betNumber, tracks) != Unset
    ensures TicketReady(FromOcr(ops, ids, tracks))
  {
    var r := FromOcr(ops, ids, tracks);
    forall i | 0 <= i < |r| ensures r[i].betNumber != "" {
      if ops[i].betNumber == "" {
        EmptyBetIsUnset(tracks);
      }
    }
  }

  const DefaultTracks: seq<string> := ["New York Evening", "Venezuela"]

  datatype Theme = Dark | Light

  /** The other theme. */
  function Flipped(t: Theme): (r: Theme)
    ensures r != t
  {
    if t == Dark then Light else Dark
  }

  /** Toggling the theme twice restores it. */
  lemma FlipTwice(t: Theme)
    ensures Flipped(Flipped(t)) == t
  {
  }

  // ---------------------------------------------------------------------------
  // The session

  class Session {
    var theme: Theme
    var selectedDate: string
    var selectedTracks: seq<string>
    var plays: seq<Play>
    var ocrOpen: bool
    var wizardOpen: bool
    var ticketOpen: bool

    /** The list is within the cap and its ids are distinct. */
    predicate Valid()
      reads this
    {
      |plays| <= MaxPlays && IdsDistinct(plays)
    }

    /** The start-up state; `today` is the local date string of the moment. */
    constructor (today: string)
      ensures Valid()
      ensures theme == Dark && selectedDate == today && selectedTracks == DefaultTracks
      ensures plays == [] && !ocrOpen && !wizardOpen && !ticketOpen
    {
      theme := Dark;
      selectedDate := today;
      selectedTracks := DefaultTracks;
      plays := [];
      ocrOpen, wizardOpen, ticketOpen := false, false, false;
    }

    /** "Add Play": refused at the cap, otherwise one blank row at the end. */
    method HandleAddPlay(freshId: Id) returns (added: bool)
      requires Valid() && freshId !in Ids(plays)
      modifies this`plays
      ensures Valid()
      ensures added <==> |old(plays)| < MaxPlays
      ensures plays == if added then old(plays) + [BlankPlay(freshId)] else old(plays)
    {
      if |plays| >= MaxPlays {
        added := false;
        return;
      }
      AppendFreshDistinct(plays, [BlankPlay(freshId)]);
      plays := plays + [BlankPlay(freshId)];
      added := true;
    }

    /** A row edit; only a bet-number edit reclassifies, under the current tracks. */
    method HandleUpdatePlay(id: Id, f: Field)
      requires Valid()
      modifies this`plays
      ensures Valid()
      ensures plays == UpdatePlay(old(plays), id, f, selectedTracks)
    {
      var r := UpdatePlay(plays, id, f, selectedTracks);
      assert Ids(r) == Ids(plays);
      plays := r;
    }

    method HandleRemovePlay(id: Id)
      requires Valid()
      modifies this`plays
      ensures Valid()
      ensures plays == RemoveIds(old(plays), [id])
    {
      RemoveIdsDistinct(plays, [id]);
      plays := RemoveIds(plays, [id]);
    }

    method HandleRemoveMultiplePlays(ids: seq<Id>)
      requires Valid()
      modifies this`plays
      ensures Valid()
      ensures plays == RemoveIds(old(plays), ids)
    {
      RemoveIdsDistinct(plays, ids);
      plays := RemoveIds(plays, ids);
    }

    method HandlePasteAmounts(a: Amounts, ids: seq<Id>)
      requires Valid()
      modifies this`plays
      ensures Valid()
      ensures plays == PasteAmounts(old(plays), a, ids)
    {
      var r := PasteAmounts(plays, a, ids);
      assert Ids(r) == Ids(plays);
      plays := r;
    }

    /** The wizard's rows, all or none; on success the wizard closes. */
    method HandleAddPlaysFromWizard(wps: seq<WizardPlay>, freshIds: seq<Id>) returns (added: bool)
      requires Valid() && |freshIds| == |wps| && Distinct(freshIds)
      requires forall k :: 0 <= k < |freshIds| ==> freshIds[k] !in Ids(plays)
      modifies this`plays, this`wizardOpen
      ensures Valid()
      ensures added <==> |old(plays)| + |wps| <= MaxPlays
      ensures plays == if added then old(plays) + FromWizard(wps, freshIds) else old(plays)
      ensures wizardOpen == if added then false else old(wizardOpen)
    {
      if |plays| + |wps| > MaxPlays {
        added := false;
        return;
      }
      var rows := FromWizard(wps, freshIds);
      AppendFreshDistinct(plays, rows);
      plays := plays + rows;
      wizardOpen := false;
      added := true;
    }

    /** The ticket image's rows, all or none, classified under the current tracks; on
        success the image dialog closes. */
    method HandleAddPlaysFromOcr(ops: seq<OcrResult>, freshIds: seq<Id>) returns (added: bool)
      requires Valid() && |freshIds| == |ops| && Distinct(freshIds)
      requires forall k :: 0 <= k < |freshIds| ==> freshIds[k] !in Ids(plays)
      modifies this`plays, this`ocrOpen
      ensures Valid()
      ensures added <==> |old(plays)| + |ops| <= MaxPlays
      ensures plays == if added then old(plays) + FromOcr(ops, freshIds, selectedTracks) else old(plays)
      ensures ocrOpen == if added then false else old(ocrOpen)
    {
      if |plays| + |ops| > MaxPlays {
        added := false;
        return;
      }
      var rows := FromOcr(ops, freshIds, selectedTracks);
      AppendFreshDistinct(plays, rows);
      plays := plays + rows;
      ocrOpen := false;
      added := true;
    }

    /** Opens the ticket only for a ticket-ready list. */
    method HandleGenerateTicket() returns (issued: bool)
      modifies this`ticketOpen
      ensures issued <==> TicketReady(plays)
      ensures ticketOpen == (old(ticketOpen) || issued)
    {
      if |plays| == 0 {
        issued := false;
        return;
      }
      var i := 0;
      while i < |plays|
        invariant 0 <= i <= |plays|
        invariant forall k :: 0 <= k < i ==> plays[k].betNumber != "" && plays[k].gameMode != Unset
      {
        if plays[i].betNumber == "" || plays[i].gameMode == Unset {
          issued := false;
          return;
        }
        i := i + 1;
      }
      ticketOpen := true;
      issued := true;
    }

    /** Reset, when confirmed: no plays, today's date, the start-up tracks. */
    method HandleReset(confirmed: bool, today: string)
      requires Valid()
      modifies this`plays, this`selectedDate, this`selectedTracks
      ensures Valid()
      ensures confirmed ==> plays == [] && selectedDate == today && selectedTracks == DefaultTracks
      ensures !confirmed ==> plays == old(plays) && selectedDate == old(selectedDate)
                             && selectedTracks == old(selectedTracks)
    {
      if confirmed {
        plays := [];
        selectedDate := today;
        selectedTracks := DefaultTracks;
      }
    }

    method ToggleTheme()
      modifies this`theme
      ensures theme == Flipped(old(theme))
    {
      theme := if theme == Dark then Light else Dark;
    }

    /** A new track selection. The rows keep the modes they were classified with. */
    method SetSelectedTracks(tracks: seq<string>)
      modifies this`selectedTracks
      ensures selectedTracks == tracks
    {
      selectedTracks := tracks;
    }

    method SetSelectedDate(date: string)
      modifies this`selectedDate
      ensures selectedDate == date
    {
      selectedDate := date;
    }

    method OpenWizard()
      modifies this`wizardOpen
      ensures wizardOpen
    {
      wizardOpen := true;
    }

    method OpenOcr()
      modifies this`ocrOpen
      ensures ocrOpen
    {
      ocrOpen := true;
    }
  }
}
