/** The catalog filter run on the conference fixture. */
module Scenarios {
  import opened Options
  import opened Seqs
  import opened Text
  import opened Repository
  import opened Catalog

  lemma AnaMatchesGarcia()
    ensures NameMatches("garcía", ANA_GARCIA)
  {
    assert OccursAt(Lower(ANA_GARCIA.name), "garcía", 4) by {
      assert Lower(ANA_GARCIA.name)[4..10] == "garcía";
    }
  }

  // Each of the other seven names lacks a letter of "garcía" in both cases,
  // so none of them contains it once lower-cased. One lemma per name keeps
  // each proof about literal strings small.

  lemma CarlosMissesGarcia()
    ensures !Contains(Lower("Carlos López"), "garcía")
  {
    MissingCharRulesOut("Carlos López", "garcía", 0, 'G');
  }

  lemma MariaMissesGarcia()
    ensures !Contains(Lower("María Rodríguez"), "garcía")
  {
    MissingCharRulesOut("María Rodríguez", "garcía", 3, 'C');
  }

  lemma JavierMissesGarcia()
    ensures !Contains(Lower("Javier Martínez"), "garcía")
  {
    MissingCharRulesOut("Javier Martínez", "garcía", 0, 'G');
  }

  lemma SofiaMissesGarcia()
    ensures !Contains(Lower("Sofia Hernández"), "garcía")
  {
    MissingCharRulesOut("Sofia Hernández", "garcía", 0, 'G');
  }

  lemma MiguelMissesGarcia()
    ensures !Contains(Lower("Miguel Torres"), "garcía")
  {
    MissingCharRulesOut("Miguel Torres", "garcía", 3, 'C');
  }

  lemma LauraMissesGarcia()
    ensures !Contains(Lower("Laura Díaz"), "garcía")
  {
    MissingCharRulesOut("Laura Díaz", "garcía", 0, 'G');
  }

  lemma DavidMissesGarcia()
    ensures !Contains(Lower("David Ruiz"), "garcía")
  {
    MissingCharRulesOut("David Ruiz", "garcía", 0, 'G');
  }

  /** Over the fixture's speaker table, the query "garcía" finds the single speaker Ana García. */
  lemma GarciaFindsAna(store: Store)
    requires store.speakers == SPEAKERS
    ensures FilteredSpeakers(store, Some("garcía")) == [ANA_GARCIA]
  {
    var rest := [CARLOS_LOPEZ, MARIA_RODRIGUEZ, JAVIER_MARTINEZ, SOFIA_HERNANDEZ, MIGUEL_TORRES, LAURA_DIAZ, DAVID_RUIZ];
    assert GetAllSpeakers(store) == [ANA_GARCIA] + rest;
    var p := NameMatcher(Lower("garcía"));
    assert Lower("garcía") == "garcía";
    AnaMatchesGarcia();
    CarlosMissesGarcia();
    MariaMissesGarcia();
    JavierMissesGarcia();
    SofiaMissesGarcia();
    MiguelMissesGarcia();
    LauraMissesGarcia();
    DavidMissesGarcia();
    FilterAppend(p, [ANA_GARCIA], rest);
    assert [ANA_GARCIA] == [] + [ANA_GARCIA];
    FilterNonePass(p, rest);
  }

  /** "ANA" and "ana" select the same speakers and the same talks. */
  lemma AnaAnyCase(store: Store)
    ensures FilteredSpeakers(store, Some("ANA")) == FilteredSpeakers(store, Some("ana"))
    ensures Schedule(store, Some("ANA")) == Schedule(store, Some("ana"))
  {
    assert Lower("ANA") == "ana" == Lower("ana");
    QueryCaseInsensitive(store, "ANA", "ana");
  }

  /**
   * With no query, or an empty one, the fixture schedule lists all nine
   * talks, the lunch break fifth with no speakers, and every talk has one
   * speaker record per key; the speaker directory lists all eight speakers.
   */
  lemma FixtureBlankQuery(query: Option<string>)
    requires IsBlank(query)
    ensures |Schedule(FIXTURE, query)| == 9
    ensures Schedule(FIXTURE, query)[4].talk.id == "lunch" && Schedule(FIXTURE, query)[4].speakerDetails == []
    ensures forall i :: 0 <= i < 9 ==>
      Schedule(FIXTURE, query)[i].talk == TALKS[i] &&
      |Schedule(FIXTURE, query)[i].speakerDetails| == |SpeakerKeys(TALKS[i])|
    ensures |FilteredSpeakers(FIXTURE, query)| == 8
  {
    FixtureEventAndTalks();
    FixtureSpeakers();
    ScheduleBlankQuery(FIXTURE, query);
    FixtureReferencesResolve();
    forall i | 0 <= i < 9
      ensures |Schedule(FIXTURE, query)[i].speakerDetails| == |SpeakerKeys(TALKS[i])|
    {
      assert forall k :: k in SpeakerKeys(TALKS[i]) ==> k in Keys(FIXTURE.speakers);
      ResolveAllKnown(FIXTURE, SpeakerKeys(TALKS[i]));
    }
  }

  /** A talk naming an unknown key next to a known one keeps only the known speaker. */
  lemma UnknownKeyDropped(store: Store, talk: Talk)
    requires store.speakers == SPEAKERS
    requires talk.speakers == Some(["s9", "s1"])
    ensures Enrich(store, talk) == EnrichedTalk(talk, [ANA_GARCIA])
  {
    FixtureKeysDistinct();
    assert GetSpeakerById(store, "s9") == None;
    assert GetSpeakerById(store, "s1") == Some(ANA_GARCIA) by {
      LookupFindsStored(SPEAKERS, 0);
    }
    assert SpeakerKeys(talk) == ["s9"] + ["s1"];
    ResolveAppend(store, ["s9"], ["s1"]);
    ResolveOne(store, "s9");
    ResolveOne(store, "s1");
  }

  /** A talk in the "Infraestructura" category matches the query "infraestructura". */
  lemma InfraestructuraMatchesCategory(store: Store, talk: Talk)
    requires talk.category == "Infraestructura"
    ensures TalkMatches("infraestructura", Enrich(store, talk))
  {
    assert OccursAt(Lower(talk.category), "infraestructura", 0) by {
      assert Lower(talk.category)[0..15] == "infraestructura";
    }
  }

  /** A talk listing key "s1" has Ana García among its speakers, so it matches "garcía". */
  lemma AnaSpeaksAt(store: Store, talk: Talk)
    requires store.speakers == SPEAKERS
    requires "s1" in SpeakerKeys(talk)
    ensures ANA_GARCIA in Enrich(store, talk).speakerDetails
    ensures TalkMatches("garcía", Enrich(store, talk))
  {
    FixtureKeysDistinct();
    LookupFindsStored(SPEAKERS, 0);
    ResolveMembers(store, SpeakerKeys(talk));
    var details := Enrich(store, talk).speakerDetails;
    var i :| 0 <= i < |details| && details[i] == ANA_GARCIA;
    AnaMatchesGarcia();
  }

  /**
   * The query "infraestructura" keeps talks t2 and t6, the two talks in the
   * "Infraestructura" category, each with its speakers attached.
   */
  lemma InfraestructuraFindsT2T6(store: Store)
    requires store.speakers == SPEAKERS && store.talks == TALKS
    ensures TALKS[1].id == "t2" && TALKS[6].id == "t6"
    ensures Enrich(store, TALKS[1]) in Schedule(store, Some("infraestructura"))
    ensures Enrich(store, TALKS[6]) in Schedule(store, Some("infraestructura"))
    ensures Enrich(store, TALKS[1]).speakerDetails != [] && Enrich(store, TALKS[6]).speakerDetails != []
  {
    assert Lower("infraestructura") == "infraestructura";
    InfraestructuraMatchesCategory(store, TALKS[1]);
    InfraestructuraMatchesCategory(store, TALKS[6]);
    ScheduleKeepsMatch(store, Some("infraestructura"), 1);
    ScheduleKeepsMatch(store, Some("infraestructura"), 6);
    AnaSpeaksAt(store, TALKS[1]);
    AnaSpeaksAt(store, TALKS[6]);
  }

  /** The query "garcía" keeps talks t2 and t6, the talks Ana García speaks at. */
  lemma GarciaScheduleFindsT2T6(store: Store)
    requires store.speakers == SPEAKERS && store.talks == TALKS
    ensures TALKS[1].id == "t2" && TALKS[6].id == "t6"
    ensures Enrich(store, TALKS[1]) in Schedule(store, Some("garcía"))
    ensures Enrich(store, TALKS[6]) in Schedule(store, Some("garcía"))
  {
    assert Lower("garcía") == "garcía";
    AnaSpeaksAt(store, TALKS[1]);
    AnaSpeaksAt(store, TALKS[6]);
    ScheduleKeepsMatch(store, Some("garcía"), 1);
    ScheduleKeepsMatch(store, Some("garcía"), 6);
  }
}
