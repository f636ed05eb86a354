/** The fixed data of the entry tool: the row cap, the track catalog and the daily
    cutoff times. */
module Constants {
  import opened Types
  import opened Wrappers
  import opened Digits
  import opened Helpers

  const MaxPlays: nat := 200

  const UsaTracks: seq<Track> := [
    Track("New York Mid Day", "New York Mid Day"),
    Track("New York Evening", "New York Evening"),
    Track("Georgia Mid Day", "Georgia Mid Day"),
    Track("Georgia Evening", "Georgia Evening"),
    Track("New Jersey Mid Day", "New Jersey Mid Day"),
    Track("New Jersey Evening", "New Jersey Evening"),
    Track("Florida Mid Day", "Florida Mid Day"),
    Track("Florida Evening", "Florida Evening"),
    Track("Connecticut Mid Day", "Connecticut Mid Day"),
    Track("Connecticut Evening", "Connecticut Evening"),
    Track("Georgia Night", "Georgia Night"),
    Track("Pensilvania AM", "Pensilvania AM"),
    Track("Pensilvania PM", "Pensilvania PM"),
    Track("Venezuela", "Venezuela"),
    Track("Brooklyn Midday", "Brooklyn Midday"),
    Track("Brooklyn Evening", "Brooklyn Evening"),
    Track("Front Midday", "Front Midday"),
    Track("Front Evening", "Front Evening"),
    Track("New York Horses", "New York Horses")
  ]

  const SantoDomingoTracks: seq<Track> := [
    Track("Real", "Real"),
    Track("Gana mas", "Gana mas"),
    Track("Loteka", "Loteka"),
    Track("Nacional", "Nacional"),
    Track("Quiniela Pale", "Quiniela Pale"),
    Track("Primera Día", "Primera Día"),
    Track("Suerte Día", "Suerte Día"),
    Track("Lotería Real", "Lotería Real"),
    Track("Suerte Tarde", "Suerte Tarde"),
    Track("Lotedom", "Lotedom"),
    Track("Primera Noche", "Primera Noche"),
    Track("Panama", "Panama")
  ]

  const TrackCategories: seq<TrackCategory> := [
    TrackCategory("USA", UsaTracks),
    TrackCategory("Santo Domingo", SantoDomingoTracks)
  ]

  /** Every catalog track, category by category. */
  const AllTracks: seq<Track> := UsaTracks + SantoDomingoTracks

  /** Daily cutoff per track name, as 24-hour "HH:MM", in the order of the source's
      object literal. */
  const CutoffEntries: seq<(string, string)> := [
    ("New York Mid Day", "14:20"),
    ("New York Evening", "22:00"),
    ("Georgia Mid Day", "12:20"),
    ("Georgia Evening", "18:40"),
    ("New Jersey Mid Day", "12:50"),
    ("New Jersey Evening", "22:00"),
    ("Florida Mid Day", "13:20"),
    ("Florida Evening", "21:30"),
    ("Connecticut Mid Day", "13:30"),
    ("Connecticut Evening", "22:00"),
    ("Georgia Night", "22:00"),
    ("Pensilvania AM", "12:45"),
    ("Pensilvania PM", "18:15"),
    ("Venezuela", "23:59"),
    ("Brooklyn Midday", "14:20"),
    ("Brooklyn Evening", "22:00"),
    ("Front Midday", "14:20"),
    ("Front Evening", "22:00"),
    ("New York Horses", "16:00"),
    ("Real", "11:45"),
    ("Gana mas", "13:25"),
    ("Loteka", "18:30"),
    ("Nacional", "19:30"),
    ("Quiniela Pale", "19:30"),
    ("Primera Día", "10:50"),
    ("Suerte Día", "11:20"),
    ("Lotería Real", "11:50"),
    ("Suerte Tarde", "16:50"),
    ("Lotedom", "16:50"),
    ("Primera Noche", "18:50"),
    ("Panama", "16:00")
  ]

  /** The cutoff of a track, `None` when the table has no entry for it. */
  function CutoffOf(name: string): Option<string> {
    Lookup(CutoffEntries, name)
  }

  /** The value of the first entry with key `k`, as an object-literal lookup. */
  function Lookup<K(==), V>(entries: seq<(K, V)>, k: K): Option<V> {
    if entries == [] then None
    else if entries[0].0 == k then Some(entries[0].1)
    else Lookup(entries[1..], k)
  }

  /** With pairwise distinct keys, looking up the key of entry i finds entry i. */
  lemma {:induction false} LookupAt<K, V>(entries: seq<(K, V)>, i: nat)
    requires i < |entries|
    requires forall a, b :: 0 <= a < b < |entries| ==> entries[a].0 != entries[b].0
    ensures Lookup(entries, entries[i].0) == Some(entries[i].1)
  {
    if i > 0 {
      assert entries[0].0 != entries[i].0;
      assert entries[1..][i - 1] == entries[i];
      LookupAt(entries[1..], i - 1);
    }
  }

  /** A key that no entry carries is not found. */
  lemma {:induction false} LookupMissing<K, V>(entries: seq<(K, V)>, k: K)
    requires forall a :: 0 <= a < |entries| ==> entries[a].0 != k
    ensures Lookup(entries, k) == None
  {
    if entries != [] {
      LookupMissing(entries[1..], k);
    }
  }

  /** A key that is found is found in some entry. */
  lemma {:induction false} LookupFound<K, V>(entries: seq<(K, V)>, k: K)
    requires Lookup(entries, k).Some?
    ensures exists i :: 0 <= i < |entries| && entries[i] == (k, Lookup(entries, k).value)
  {
    if entries[0].0 == k {
      assert entries[0] == (k, Lookup(entries, k).value);
    } else {
      LookupFound(entries[1..], k);
      var i :| 0 <= i < |entries[1..]| && entries[1..][i] == (k, Lookup(entries[1..], k).value);
      assert entries[i + 1] == entries[1..][i];
    }
  }

  /** A 24-hour clock time written "HH:MM". */
  predicate IsClockTime(s: string) {
    && |s| == 5 && s[2] == ':'
    && IsDigit(s[0]) && IsDigit(s[1]) && IsDigit(s[3]) && IsDigit(s[4])
    && 10 * DigitValue(s[0]) + DigitValue(s[1]) < 24
    && 10 * DigitValue(s[3]) + DigitValue(s[4]) < 60
  }

  /** Hours and minutes of a "HH:MM" string. */
  function ClockHours(s: string): nat
    requires IsClockTime(s)
  {
    10 * DigitValue(s[0]) + DigitValue(s[1])
  }

  function ClockMinutes(s: string): nat
    requires IsClockTime(s)
  {
    10 * DigitValue(s[3]) + DigitValue(s[4])
  }

  lemma CatalogSize()
    ensures |AllTracks| == 31
  {
  }

  /** Every catalog track's id is its name. */
  lemma CatalogIdsAreNames()
    ensures forall i :: 0 <= i < |AllTracks| ==> AllTracks[i].id == AllTracks[i].name
  {
  }

  /** The 31 track names are pairwise distinct. */
  lemma CatalogNamesDistinct()
    ensures forall i, j :: 0 <= i < j < |AllTracks| ==> AllTracks[i].name != AllTracks[j].name
  {
    UsaNamesDistinct();
    SantoDomingoNamesDistinct();
    CategoriesDisjoint();
    forall i, j | 0 <= i < j < |AllTracks| ensures AllTracks[i].name != AllTracks[j].name {
      var u := |UsaTracks|;
      if j < u {
        assert AllTracks[i] == UsaTracks[i] && AllTracks[j] == UsaTracks[j];
      } else if i >= u {
        assert AllTracks[i] == SantoDomingoTracks[i - u] && AllTracks[j] == SantoDomingoTracks[j - u];
      } else {
        assert AllTracks[i] == UsaTracks[i] && AllTracks[j] == SantoDomingoTracks[j - u];
      }
    }
  }

  lemma UsaNamesDistinct()
    ensures forall i, j :: 0 <= i < j < |UsaTracks| ==> UsaTracks[i].name != UsaTracks[j].name
  {
  }

  lemma SantoDomingoNamesDistinct()
    ensures forall i, j :: 0 <= i < j < |SantoDomingoTracks| ==> SantoDomingoTracks[i].name != SantoDomingoTracks[j].name
  {
  }

  lemma CategoriesDisjoint()
    ensures forall i, j :: 0 <= i < |UsaTracks| && 0 <= j < |SantoDomingoTracks| ==> UsaTracks[i].name != SantoDomingoTracks[j].name
  {
  }

  /** The cutoff table lists the catalog's tracks, in catalog order. */
  lemma CutoffTableFollowsCatalog()
    ensures |CutoffEntries| == |AllTracks|
    ensures forall i :: 0 <= i < |AllTracks| ==> CutoffEntries[i].0 == AllTracks[i].name
  {
  }

  /** Every cutoff is a valid 24-hour "HH:MM" time. */
  lemma CutoffsWellFormed()
    ensures forall i :: 0 <= i < |CutoffEntries| ==> IsClockTime(CutoffEntries[i].1)
  {
    UsaCutoffsWellFormed();
    SantoDomingoCutoffsWellFormed();
  }

  lemma UsaCutoffsWellFormed()
    ensures forall i :: 0 <= i < |UsaTracks| ==> IsClockTime(CutoffEntries[i].1)
  {
    forall i | 0 <= i < |UsaTracks| ensures IsClockTime(CutoffEntries[i].1) {
      var t := CutoffEntries[i].1;
      assert t in {"14:20", "22:00", "12:20", "18:40", "12:50", "13:20", "21:30", "13:30",
                   "12:45", "18:15", "23:59", "16:00"};
    }
  }

  lemma SantoDomingoCutoffsWellFormed()
    ensures forall i :: |UsaTracks| <= i < |CutoffEntries| ==> IsClockTime(CutoffEntries[i].1)
  {
    forall i | |UsaTracks| <= i < |CutoffEntries| ensures IsClockTime(CutoffEntries[i].1) {
      var t := CutoffEntries[i].1;
      assert t in {"11:45", "13:25", "18:30", "19:30", "10:50", "11:20", "11:50", "16:50", "18:50", "16:00"};
    }
  }

  /** Every catalog track has a cutoff, and it is a valid "HH:MM" time. */
  lemma CatalogHasCutoffs(i: nat)
    requires i < |AllTracks|
    ensures CutoffOf(AllTracks[i].name).Some?
    ensures IsClockTime(CutoffOf(AllTracks[i].name).value)
  {
    CutoffTableFollowsCatalog();
    CatalogNamesDistinct();
    CutoffsWellFormed();
    LookupAt(CutoffEntries, i);
  }

  /** A name outside the catalog has no cutoff. */
  lemma NoCutoffOutsideCatalog(name: string)
    requires forall i :: 0 <= i < |AllTracks| ==> AllTracks[i].name != name
    ensures CutoffOf(name) == None
  {
    CutoffTableFollowsCatalog();
    LookupMissing(CutoffEntries, name);
  }

  /** Whatever the cutoff table gives for a name is a valid "HH:MM" time. */
  lemma CutoffIsClockTime(name: string)
    ensures CutoffOf(name).Some? ==> IsClockTime(CutoffOf(name).value)
  {
    if CutoffOf(name).Some? {
      LookupFound(CutoffEntries, name);
      CutoffsWellFormed();
    }
  }

  // ---------------------------------------------------------------------------
  // The catalog against the classifier's dialect markers

  /** `t` is the name of one of the tracks of `category`. */
  predicate NamedIn(t: string, category: seq<Track>) {
    exists i :: 0 <= i < |category| && category[i].name == t
  }

  lemma OccursContains(s: string, sub: string, i: nat)
    requires OccursAt(s, sub, i)
    ensures Contains(s, sub)
  {
    ContainsIff(s, sub);
  }

  /** Every Santo Domingo track name contains one of the Santo Domingo markers. */
  lemma SantoDomingoTracksMarked()
    ensures forall i :: 0 <= i < |SantoDomingoTracks| ==> MentionsAny(SantoDomingoTracks[i].name, SdMarkers)
  {
    forall i | 0 <= i < |SantoDomingoTracks|
      ensures MentionsAny(SantoDomingoTracks[i].name, SdMarkers)
    {
      var name := SantoDomingoTracks[i].name;
      var m, at := MarkerOf(i);
      OccursContains(name, m, at);
    }
  }

  /** A Santo Domingo marker inside the name of Santo Domingo track i, and its offset. */
  lemma MarkerOf(i: nat) returns (m: string, at: nat)
    requires i < |SantoDomingoTracks|
    ensures m in SdMarkers && OccursAt(SantoDomingoTracks[i].name, m, at)
  {
    var name := SantoDomingoTracks[i].name;
    if name == "Primera Día" || name == "Primera Noche" {
      m, at := "Primera", 0;
    } else if name == "Suerte Día" || name == "Suerte Tarde" {
      m, at := "Suerte", 0;
    } else if name == "Lotería Real" {
      m, at := "Lotería", 0;
    } else {
      m, at := name, 0;
    }
    assert name[at..at + |m|] == m;
  }

  /** No character of `t` is one of `bad`. */
  predicate Avoids(t: string, bad: string) {
    forall k :: 0 <= k < |t| ==> t[k] !in bad
  }

  lemma AvoidsChar(t: string, bad: string, c: char)
    requires Avoids(t, bad) && c in bad
    ensures c !in t
  {
    assert forall k :: 0 <= k < |t| ==> t[k] != c;
  }

  /** Letter sets a USA name avoids: every Santo Domingo marker has one of R, m, L, Q,
      S, except "Nacional", which has both 'c' and 'N'. */
  const SdLettersC: string := "RmLQSc"
  const SdLettersN: string := "RmLQSN"

  /** A name avoiding one of these letter sets contains no Santo Domingo marker. */
  lemma NoSdMarker(t: string, bad: string)
    requires (bad == SdLettersC || bad == SdLettersN) && Avoids(t, bad)
    ensures !MentionsAny(t, SdMarkers)
  {
    AvoidsChar(t, bad, 'R');
    AvoidsChar(t, bad, 'm');
    AvoidsChar(t, bad, 'L');
    AvoidsChar(t, bad, 'Q');
    AvoidsChar(t, bad, 'S');
    var w := bad[5];
    AvoidsChar(t, bad, w);
    forall m | m in SdMarkers ensures !Contains(t, m) {
      if m == "Real" { AbsentChar(t, m, 'R'); }
      else if m == "Gana mas" || m == "Primera" || m == "Panama" { AbsentChar(t, m, 'm'); }
      else if m == "Loteka" || m == "Lotería" || m == "Lotedom" { AbsentChar(t, m, 'L'); }
      else if m == "Quiniela Pale" { AbsentChar(t, m, 'Q'); }
      else if m == "Suerte" { AbsentChar(t, m, 'S'); }
      else { AbsentChar(t, m, w); }
    }
  }

  lemma UsaNamesListed1()
    ensures UsaTracks[0].name == "New York Mid Day"
    ensures UsaTracks[1].name == "New York Evening"
    ensures UsaTracks[2].name == "Georgia Mid Day"
    ensures UsaTracks[3].name == "Georgia Evening"
    ensures UsaTracks[4].name == "New Jersey Mid Day"
  {
  }

  lemma UsaNamesListed2()
    ensures UsaTracks[5].name == "New Jersey Evening"
    ensures UsaTracks[6].name == "Florida Mid Day"
    ensures UsaTracks[7].name == "Florida Evening"
    ensures UsaTracks[8].name == "Connecticut Mid Day"
    ensures UsaTracks[9].name == "Connecticut Evening"
  {
  }

  lemma UsaNamesListed3()
    ensures UsaTracks[10].name == "Georgia Night"
    ensures UsaTracks[11].name == "Pensilvania AM"
    ensures UsaTracks[12].name == "Pensilvania PM"
    ensures UsaTracks[13].name == "Venezuela"
    ensures UsaTracks[14].name == "Brooklyn Midday"
  {
  }

  lemma UsaNamesListed4()
    ensures UsaTracks[15].name == "Brooklyn Evening"
    ensures UsaTracks[16].name == "Front Midday"
    ensures UsaTracks[17].name == "Front Evening"
    ensures UsaTracks[18].name == "New York Horses"
  {
  }

  // The letter checks, one name at a time.
  lemma NewYorkMidDayAvoids() ensures Avoids("New York Mid Day", SdLettersC) {}
  lemma NewYorkEveningAvoids() ensures Avoids("New York Evening", SdLettersC) {}
  lemma GeorgiaMidDayAvoids() ensures Avoids("Georgia Mid Day", SdLettersC) {}
  lemma GeorgiaEveningAvoids() ensures Avoids("Georgia Evening", SdLettersC) {}
  lemma NewJerseyMidDayAvoids() ensures Avoids("New Jersey Mid Day", SdLettersC) {}
  lemma NewJerseyEveningAvoids() ensures Avoids("New Jersey Evening", SdLettersC) {}
  lemma FloridaMidDayAvoids() ensures Avoids("Florida Mid Day", SdLettersC) {}
  lemma FloridaEveningAvoids() ensures Avoids("Florida Evening", SdLettersC) {}
  lemma ConnecticutMidDayAvoids() ensures Avoids("Connecticut Mid Day", SdLettersN) {}
  lemma ConnecticutEveningAvoids() ensures Avoids("Connecticut Evening", SdLettersN) {}
  lemma GeorgiaNightAvoids() ensures Avoids("Georgia Night", SdLettersC) {}
  lemma PensilvaniaAMAvoids() ensures Avoids("Pensilvania AM", SdLettersC) {}
  lemma PensilvaniaPMAvoids() ensures Avoids("Pensilvania PM", SdLettersC) {}
  lemma VenezuelaAvoids() ensures Avoids("Venezuela", SdLettersC) {}
  lemma BrooklynMiddayAvoids() ensures Avoids("Brooklyn Midday", SdLettersC) {}
  lemma BrooklynEveningAvoids() ensures Avoids("Brooklyn Evening", SdLettersC) {}
  lemma FrontMiddayAvoids() ensures Avoids("Front Midday", SdLettersC) {}
  lemma FrontEveningAvoids() ensures Avoids("Front Evening", SdLettersC) {}
  lemma NewYorkHorsesAvoids() ensures Avoids("New York Horses", SdLettersC) {}

  /** No USA-category track name contains a Santo Domingo marker. */
  lemma UsaTracksUnmarked()
    ensures forall i :: 0 <= i < |UsaTracks| ==> !MentionsAny(UsaTracks[i].name, SdMarkers)
  {
    UsaNamesListed1();
    UsaNamesListed2();
    UsaNamesListed3();
    UsaNamesListed4();
    NewYorkMidDayAvoids();
    NewYorkEveningAvoids();
    GeorgiaMidDayAvoids();
    GeorgiaEveningAvoids();
    NewJerseyMidDayAvoids();
    NewJerseyEveningAvoids();
    FloridaMidDayAvoids();
    FloridaEveningAvoids();
    ConnecticutMidDayAvoids();
    ConnecticutEveningAvoids();
    GeorgiaNightAvoids();
    PensilvaniaAMAvoids();
    PensilvaniaPMAvoids();
    VenezuelaAvoids();
    BrooklynMiddayAvoids();
    BrooklynEveningAvoids();
    FrontMiddayAvoids();
    FrontEveningAvoids();
    NewYorkHorsesAvoids();
    forall i | 0 <= i < |UsaTracks| ensures !MentionsAny(UsaTracks[i].name, SdMarkers) {
      var bad := if i == 8 || i == 9 then SdLettersN else SdLettersC;
      NoSdMarker(UsaTracks[i].name, bad);
    }
  }

  /** A name without 'N', 'P' and 'o' contains no USA marker. */
  lemma NoUsaMarker(t: string)
    requires 'N' !in t && 'P' !in t && 'o' !in t
    ensures !MentionsAny(t, UsaMarkers)
  {
    forall m | m in UsaMarkers ensures !Contains(t, m) {
      if m == "New York" || m == "New Jersey" { AbsentChar(t, m, 'N'); }
      else if m == "Pensilvania" { AbsentChar(t, m, 'P'); }
      else { AbsentChar(t, m, 'o'); }
    }
  }

  /** "Venezuela" is filed under USA but carries none of the USA markers. */
  lemma VenezuelaUnmarked()
    ensures UsaTracks[13].name == "Venezuela"
    ensures !MentionsAny(UsaTracks[13].name, UsaMarkers)
  {
    NoUsaMarker(UsaTracks[13].name);
  }

  /** A selection of USA-category tracks only is not Santo Domingo: two-digit bets are
      Pulito and dash bets Palé. */
  lemma UsaSelectionClassifies(bet: string, tracks: seq<string>)
    requires forall t :: t in tracks ==> NamedIn(t, UsaTracks)
    ensures !IsSd(tracks)
    ensures |DigitsOnly(bet)| == 2 ==> DetermineGameMode(bet, tracks) == Pulito
    ensures IsPaleShape(CleanBet(bet)) ==> DetermineGameMode(bet, tracks) == Pale
  {
    UsaTracksUnmarked();
    forall t | t in tracks ensures !MentionsAny(t, SdMarkers) {
      var i :| 0 <= i < |UsaTracks| && UsaTracks[i].name == t;
    }
    ModeCharacterization(bet, tracks);
  }

  /** A selection holding any Santo Domingo track is Santo Domingo: two-digit bets are
      RD-Quiniela and dash bets Pale-RD. */
  lemma SantoDomingoSelectionClassifies(bet: string, tracks: seq<string>, i: nat)
    requires i < |SantoDomingoTracks| && SantoDomingoTracks[i].name in tracks
    ensures IsSd(tracks)
    ensures |DigitsOnly(bet)| == 2 ==> DetermineGameMode(bet, tracks) == RdQuiniela
    ensures IsPaleShape(CleanBet(bet)) ==> DetermineGameMode(bet, tracks) == PaleRd
  {
    SantoDomingoTracksMarked();
    ModeCharacterization(bet, tracks);
  }
}
