/** The quick-entry wizard: a review list the user fills one bet at a time, by quick
    pick or by rounding down a range, and hands to the session in one go. */
module Wizard {
  import opened Types
  import opened Wrappers
  import opened Digits
  import opened Helpers
  import App

  /** The four options of the quick-pick selector. */
  datatype QuickMode = QpPick3 | QpWin4 | QpPulito | QpPaleRd

  /** The option's text, which becomes the rows' game mode. */
  function Label(m: QuickMode): (s: string)
    ensures s in ModeLabels && s != Unset
  {
    match m
    case QpPick3 => Pick3
    case QpWin4 => Win4
    case QpPulito => Pulito
    case QpPaleRd => PaleRd
  }

  /** `Math.min(50, Math.max(1, v))`: the quick-pick count input. */
  function ClampCount(v: int): (r: int)
    ensures 1 <= r <= 50
    ensures 1 <= v <= 50 ==> r == v
    ensures v < 1 ==> r == 1
    ensures v > 50 ==> r == 50
  {
    if v < 1 then 1 else if v > 50 then 50 else v
  }

  /** Clamping a clamped count changes nothing. */
  lemma ClampIdempotent(v: int)
    ensures ClampCount(ClampCount(v)) == ClampCount(v)
  {
  }

  /** A review row the session can put on a ticket: a bet number and a recognised mode. */
  predicate RowReady(w: WizardPlay) {
    w.betNumber != "" && w.gameMode in ModeLabels && w.gameMode != Unset
  }

  // ---------------------------------------------------------------------------
  // Quick pick

  /** How many digits the option's numbers have: 3, 4, or 2 for each half of a Palé. */
  function Width(m: QuickMode): nat {
    match m
    case QpPick3 => 3
    case QpWin4 => 4
    case QpPulito => 2
    case QpPaleRd => 2
  }

  lemma Pow10Small()
    ensures Pow10(2) == 100 && Pow10(3) == 1000 && Pow10(4) == 10000
  {
    assert Pow10(1) == 10;
  }

  /** A draw is `Math.floor(Math.random() * 10^w)` for the option's width w: a whole
      number below 10^w. */
  predicate ValidDraws(m: QuickMode, draws: seq<nat>) {
    forall k :: 0 <= k < |draws| ==> draws[k] < Pow10(Width(m))
  }

  /** `String(d).padStart(w, '0')`: exactly `w` digits. */
  function PaddedDraw(d: nat, w: nat): (s: string)
    requires 1 <= w && d < Pow10(w)
    ensures |s| == w && AllDigits(s)
  {
    PaddedRoundTrip(d, w);
    PadStart(NatToString(d), w, '0')
  }

  /** The padded digits spell the draw. */
  lemma PaddedDrawValue(d: nat, w: nat)
    requires 1 <= w && d < Pow10(w)
    ensures ValueOf(PaddedDraw(d, w)) == d
  {
    PaddedRoundTrip(d, w);
  }

  /** Draws a quick pick of `count` rows consumes: two per Pale-RD row, one otherwise. */
  function DrawsNeeded(m: QuickMode, count: nat): nat {
    if m == QpPaleRd then count + count else count
  }

  /** Two padded draws joined by a dash: a bet in `DD-DD` form. */
  function PaleDraw(x: nat, y: nat): (s: string)
    requires x < Pow10(2) && y < Pow10(2)
    ensures IsPaleShape(s)
  {
    var a, b := PaddedDraw(x, 2), PaddedDraw(y, 2);
    PaleJoin(a, b);
    a + ['-'] + b
  }

  /** The two halves of a Palé draw spell the two draws. */
  lemma PaleDrawValues(x: nat, y: nat)
    requires x < Pow10(2) && y < Pow10(2)
    ensures ValueOf(PaleDraw(x, y)[..2]) == x && ValueOf(PaleDraw(x, y)[3..]) == y
  {
    var a, b := PaddedDraw(x, 2), PaddedDraw(y, 2);
    PaleJoin(a, b);
    PaddedDrawValue(x, 2);
    PaddedDrawValue(y, 2);
  }

  lemma PaleJoin(a: string, b: string)
    requires |a| == 2 && |b| == 2 && AllDigits(a) && AllDigits(b)
    ensures IsPaleShape(a + ['-'] + b)
    ensures (a + ['-'] + b)[..2] == a && (a + ['-'] + b)[3..] == b
  {
  }

  /** The bet number of quick-pick row i, built from the draws that row consumes. */
  function QuickBet(m: QuickMode, draws: seq<nat>, i: nat): string
    requires ValidDraws(m, draws) && DrawsNeeded(m, i + 1) <= |draws|
  {
    match m
    case QpPick3 => PaddedDraw(draws[i], 3)
    case QpWin4 => PaddedDraw(draws[i], 4)
    case QpPulito => PaddedDraw(draws[i], 2)
    case QpPaleRd => PaleDraw(draws[i + i], draws[i + i + 1])
  }

  /** A Pick 3, Win 4 or Pulito quick-pick bet is exactly 3, 4 or 2 digits spelling
      its draw. */
  lemma QuickBetDigits(m: QuickMode, draws: seq<nat>, i: nat)
    requires m != QpPaleRd && ValidDraws(m, draws) && DrawsNeeded(m, i + 1) <= |draws|
    ensures var b := QuickBet(m, draws, i);
      |b| == Width(m) && AllDigits(b) && ValueOf(b) == draws[i]
  {
    Pow10Small();
    PaddedDrawValue(draws[i], Width(m));
  }

  /** A Pale-RD quick-pick bet is `DD-DD`, its halves spelling the row's two draws. */
  lemma QuickBetPale(draws: seq<nat>, i: nat)
    requires ValidDraws(QpPaleRd, draws) && DrawsNeeded(QpPaleRd, i + 1) <= |draws|
    ensures var b := QuickBet(QpPaleRd, draws, i);
      IsPaleShape(b) && ValueOf(b[..2]) == draws[i + i] && ValueOf(b[3..]) == draws[i + i + 1]
  {
    Pow10Small();
    PaleDrawValues(draws[i + i], draws[i + i + 1]);
  }

  /** The rows of the first `n` iterations of the quick-pick loop: row k carries the
      k-th bet, the selected option's label and the current amounts. */
  function QuickPicks(m: QuickMode, n: nat, draws: seq<nat>,
                      st: Option<real>, bx: Option<real>, co: Option<real>): seq<WizardPlay>
    requires ValidDraws(m, draws) && DrawsNeeded(m, n) <= |draws|
  {
    seq(n, k requires 0 <= k < n => WizardPlay(QuickBet(m, draws, k), Label(m), st, bx, co))
  }

  /** What the classifier makes of a quick-pick bet. Pick 3 and Win 4 rows agree with
      it; a Pulito or Pale-RD row keeps its label even where the classifier would say
      RD-Quiniela or Palé. */
  lemma QuickBetClassifies(m: QuickMode, draws: seq<nat>, i: nat, tracks: seq<string>)
    requires ValidDraws(m, draws) && DrawsNeeded(m, i + 1) <= |draws|
    ensures DetermineGameMode(QuickBet(m, draws, i), tracks) == match m
      case QpPick3 => Pick3
      case QpWin4 => Win4
      case QpPulito => if IsSd(tracks) then RdQuiniela else Pulito
      case QpPaleRd => if IsSd(tracks) then PaleRd else Pale
  {
    var b := QuickBet(m, draws, i);
    if m == QpPaleRd {
      QuickBetPale(draws, i);
      PaleBetClassifies(b, tracks);
    } else {
      QuickBetDigits(m, draws, i);
      DigitBetClassifies(b, tracks);
    }
  }

  /** One more iteration of the loop appends the next row. */
  lemma QuickPicksStep(m: QuickMode, n: nat, draws: seq<nat>,
                       st: Option<real>, bx: Option<real>, co: Option<real>)
    requires ValidDraws(m, draws) && DrawsNeeded(m, n + 1) <= |draws|
    ensures QuickPicks(m, n + 1, draws, st, bx, co)
         == QuickPicks(m, n, draws, st, bx, co) + [WizardPlay(QuickBet(m, draws, n), Label(m), st, bx, co)]
  {
    var prev, next := QuickPicks(m, n, draws, st, bx, co), QuickPicks(m, n + 1, draws, st, bx, co);
    assert forall k :: 0 <= k < n ==> next[k] == prev[k];
  }

  /** Every quick-pick bet is non-empty. */
  lemma QuickBetNonEmpty(m: QuickMode, draws: seq<nat>, i: nat)
    requires ValidDraws(m, draws) && DrawsNeeded(m, i + 1) <= |draws|
    ensures QuickBet(m, draws, i) != ""
  {
    if m == QpPaleRd {
      QuickBetPale(draws, i);
    } else {
      QuickBetDigits(m, draws, i);
    }
  }

  /** Quick-pick rows are ticket-ready. */
  lemma QuickPicksReady(m: QuickMode, n: nat, draws: seq<nat>,
                        st: Option<real>, bx: Option<real>, co: Option<real>)
    requires ValidDraws(m, draws) && DrawsNeeded(m, n) <= |draws|
    ensures forall w :: w in QuickPicks(m, n, draws, st, bx, co) ==> RowReady(w)
  {
    var rows := QuickPicks(m, n, draws, st, bx, co);
    forall w | w in rows ensures RowReady(w) {
      var i :| 0 <= i < |rows| && rows[i] == w;
      QuickBetNonEmpty(m, draws, i);
    }
  }

  // ---------------------------------------------------------------------------
  // Round down

  /** The `^(\d{2})0-(\d{2})9$` pattern: two digits, '0', '-', two digits, '9'. */
  predicate MatchesRange(s: string) {
    && |s| == 7 && IsDigit(s[0]) && IsDigit(s[1]) && s[2] == '0' && s[3] == '-'
    && IsDigit(s[4]) && IsDigit(s[5]) && s[6] == '9'
  }

  /** Round down accepts a range whose two groups are the same two digits. */
  predicate IsRoundDownRange(s: string) {
    MatchesRange(s) && s[..2] == s[4..6]
  }

  /** The ten Pick 3 rows `base + "0"` … `base + "9"`. */
  function RoundDownRows(base: string, st: Option<real>): seq<WizardPlay> {
    seq(10, i requires 0 <= i < 10 => WizardPlay(base + [DigitChar(i)], Pick3, st, None, None))
  }

  /** The rows run through the range the input names: the first is its lower end, the
      last its upper end, and row i stands for the number base·10 + i. Each is a
      Pick 3 under every track selection. */
  lemma RoundDownRowsSpan(s: string, st: Option<real>, tracks: seq<string>, i: nat)
    requires IsRoundDownRange(s) && i < 10
    ensures var rows := RoundDownRows(s[..2], st);
      && rows[0].betNumber == s[..3] && rows[9].betNumber == s[4..]
      && AllDigits(rows[i].betNumber) && ValueOf(rows[i].betNumber) == 10 * ValueOf(s[..2]) + i
      && DetermineGameMode(rows[i].betNumber, tracks) == Pick3
  {
    var rows := RoundDownRows(s[..2], st);
    var b := rows[i].betNumber;
    assert b[..2] == s[..2];
    assert b[..|b| - 1] == s[..2];
    DigitsOnlyKeeps(b);
    ModeCharacterization(b, tracks);
    assert rows[0].betNumber == s[..3];
    assert rows[9].betNumber == s[4..];
  }

  /** Round-down rows are ticket-ready. */
  lemma RoundDownRowsReady(base: string, st: Option<real>)
    ensures forall w :: w in RoundDownRows(base, st) ==> RowReady(w)
  {
  }

  // ---------------------------------------------------------------------------
  // Review-list removal

  /** `plays.filter((_, idx) => idx !== i)`. */
  function RemoveIndex(rows: seq<WizardPlay>, i: int): (r: seq<WizardPlay>)
    ensures 0 <= i < |rows| ==>
      && |r| == |rows| - 1
      && (forall k :: 0 <= k < i ==> r[k] == rows[k])
      && (forall k :: i <= k < |r| ==> r[k] == rows[k + 1])
    ensures !(0 <= i < |rows|) ==> r == rows
  {
    if 0 <= i < |rows| then rows[..i] + rows[i + 1..] else rows
  }

  /** Ready review rows, handed to the session, make ready play rows: a non-empty
      review list from a valid wizard can be ticketed as it stands. */
  lemma SubmittedRowsTicketReady(rows: seq<WizardPlay>, ids: seq<Id>)
    requires |ids| == |rows| && |rows| > 0
    requires forall k :: 0 <= k < |rows| ==> RowReady(rows[k])
    ensures App.TicketReady(App.FromWizard(rows, ids))
  {
  }

  // ---------------------------------------------------------------------------
  // The wizard's state

  class WizardState {
    var plays: seq<WizardPlay>
    var betNumber: string
    var straight: Option<real>
    var box: Option<real>
    var combo: Option<real>
    var qpMode: QuickMode
    var qpCount: int

    /** The count is within the clamp and every review row is ticket-ready. */
    predicate Valid()
      reads this
    {
      && 1 <= qpCount <= 50
      && forall k :: 0 <= k < |plays| ==> RowReady(plays[k])
    }

    constructor ()
      ensures Valid()
      ensures plays == [] && betNumber == "" && straight == None && box == None && combo == None
      ensures qpMode == QpPick3 && qpCount == 5
    {
      plays, betNumber := [], "";
      straight, box, combo := None, None, None;
      qpMode, qpCount := QpPick3, 5;
    }

    /** "Add": nothing for an empty bet; a rejection for a bet the classifier does not
        recognise; otherwise one row with the current amounts, and the bet field clears. */
    method AddNext(tracks: seq<string>) returns (added: bool)
      requires Valid()
      modifies this`plays, this`betNumber
      ensures Valid()
      ensures added <==> old(betNumber) != "" && DetermineGameMode(old(betNumber), tracks) != Unset
      ensures plays == if added
        then old(plays) + [WizardPlay(old(betNumber), DetermineGameMode(old(betNumber), tracks), straight, box, combo)]
        else old(plays)
      ensures betNumber == if added then "" else old(betNumber)
    {
      if betNumber == "" {
        added := false;
        return;
      }
      var gameMode := DetermineGameMode(betNumber, tracks);
      if gameMode == Unset {
        added := false;
        return;
      }
      plays := plays + [WizardPlay(betNumber, gameMode, straight, box, combo)];
      betNumber := "";
      added := true;
    }

    /** "Quick Pick": `qpCount` rows of the selected mode from the supplied draws. */
    method QuickPick(draws: seq<nat>)
      requires Valid() && ValidDraws(qpMode, draws) && DrawsNeeded(qpMode, qpCount) <= |draws|
      modifies this`plays
      ensures Valid()
      ensures plays == old(plays) + QuickPicks(qpMode, qpCount, draws, straight, box, combo)
    {
      var newPlays: seq<WizardPlay> := [];
      var i := 0;
      while i < qpCount
        invariant 0 <= i <= qpCount
        invariant newPlays == QuickPicks(qpMode, i, draws, straight, box, combo)
        invariant plays == old(plays)
      {
        var numStr := QuickBet(qpMode, draws, i);
        QuickBetNonEmpty(qpMode, draws, i);
        QuickPicksStep(qpMode, i, draws, straight, box, combo);
        if numStr != "" {
          newPlays := newPlays + [WizardPlay(numStr, Label(qpMode), straight, box, combo)];
        }
        i := i + 1;
      }
      QuickPicksReady(qpMode, qpCount, draws, straight, box, combo);
      plays := plays + newPlays;
    }

    /** "Round Down": for a range `DD0-DD9` with equal groups, the ten rows of that
        range with the current straight amount and no box or combo. */
    method RoundDown() returns (ok: bool)
      requires Valid()
      modifies this`plays
      ensures Valid()
      ensures ok <==> IsRoundDownRange(betNumber)
      ensures plays == if ok then old(plays) + RoundDownRows(betNumber[..2], straight) else old(plays)
    {
      if !MatchesRange(betNumber) || betNumber[..2] != betNumber[4..6] {
        ok := false;
        return;
      }
      var base := betNumber[..2];
      var newPlays: seq<WizardPlay> := [];
      var i := 0;
      while i <= 9
        invariant 0 <= i <= 10
        invariant newPlays == RoundDownRows(base, straight)[..i]
      {
        newPlays := newPlays + [WizardPlay(base + [DigitChar(i)], Pick3, straight, None, None)];
        i := i + 1;
      }
      RoundDownRowsReady(base, straight);
      plays := plays + newPlays;
      ok := true;
    }

    /** The review row's remove button. */
    method RemoveRow(i: int)
      requires Valid()
      modifies this`plays
      ensures Valid()
      ensures plays == RemoveIndex(old(plays), i)
    {
      plays := RemoveIndex(plays, i);
    }

    method SetQpCount(v: int)
      requires Valid()
      modifies this`qpCount
      ensures Valid()
      ensures qpCount == ClampCount(v)
    {
      qpCount := ClampCount(v);
    }

    method SetQpMode(m: QuickMode)
      requires Valid()
      modifies this`qpMode
      ensures Valid()
      ensures qpMode == m
    {
      qpMode := m;
    }

    method SetBetNumber(s: string)
      modifies this`betNumber
      ensures betNumber == s
    {
      betNumber := s;
    }

    method SetAmounts(st: Option<real>, bx: Option<real>, co: Option<real>)
      modifies this`straight, this`box, this`combo
      ensures straight == st && box == bx && combo == co
    {
      straight, box, combo := st, bx, co;
    }

    /** Closing and reopening the wizard. The app renders the wizard only while it is
        open, so closing discards the component and the next opening starts from the
        initial state: empty list, bet field and amounts (what the reset-on-close effect
        also clears), and the quick-pick settings back to `Pick 3` and 5. */
    method Close()
      modifies this`plays, this`betNumber, this`straight, this`box, this`combo,
        this`qpMode, this`qpCount
      ensures Valid()
      ensures plays == [] && betNumber == "" && straight == None && box == None && combo == None
      ensures qpMode == QpPick3 && qpCount == 5
    {
      plays, betNumber := [], "";
      straight, box, combo := None, None, None;
      qpMode, qpCount := QpPick3, 5;
    }

    /** The "Add N Plays" button: the review rows, or nothing while the list is empty. */
    method Submit() returns (rows: Option<seq<WizardPlay>>)
      ensures rows.Some? <==> |plays| > 0
      ensures rows.Some? ==> rows.value == plays
    {
      rows := if |plays| > 0 then Some(plays) else None;
    }
  }
}
