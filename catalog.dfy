/**
 * The catalog filter: the speaker directory filtered by name, and the
 * schedule with each talk's speaker keys resolved to speaker records and then
 * filtered by title, category or speaker name. Queries are case-insensitive
 * substring matches; an absent or empty query filters nothing.
 */
module Catalog {
  import opened Options
  import opened Seqs
  import opened Text
  import opened Repository

  /** A talk with the speaker records its keys resolve to (its `speaker_details`). */
  datatype EnrichedTalk = EnrichedTalk(talk: Talk, speakerDetails: seq<Speaker>)

  /** Python's `not query`: there is no query, or it is the empty string. */
  function IsBlank(query: Option<string>): (r: bool)
    ensures !r <==> query.Some? && |query.value| > 0
  {
    query.None? || query.value == []
  }

  // ----- Specification -----

  /** The lower-cased query `lq` occurs in the lower-cased name of `speaker`. */
  ghost predicate NameMatches(lq: string, speaker: Speaker)
  {
    Contains(Lower(speaker.name), lq)
  }

  ghost function NameMatcher(lq: string): Speaker -> bool
  {
    speaker => NameMatches(lq, speaker)
  }

  /** What the speaker filter returns for `query`. */
  ghost function FilteredSpeakers(store: Store, query: Option<string>): seq<Speaker>
  {
    if IsBlank(query) then GetAllSpeakers(store)
    else Filter(NameMatcher(Lower(query.value)), GetAllSpeakers(store))
  }

  /** The keys a talk lists; a talk without a `speakers` field lists none. */
  function SpeakerKeys(talk: Talk): (r: seq<string>)
    ensures talk.speakers.Some? ==> r == talk.speakers.value
    ensures talk.speakers.None? ==> r == []
  {
    talk.speakers.GetOr([])
  }

  /** The speakers `keys` resolve to, in key order; a key with no speaker is skipped. */
  function Resolve(store: Store, keys: seq<string>): (r: seq<Speaker>)
    ensures |r| <= |keys|
  {
    if keys == [] then []
    else
      var rest := Resolve(store, keys[..|keys| - 1]);
      match GetSpeakerById(store, keys[|keys| - 1])
      case Some(speaker) => rest + [speaker]
      case None => rest
  }

  /** A talk with its speaker details attached and nothing else changed. */
  function Enrich(store: Store, talk: Talk): (r: EnrichedTalk)
    ensures r.talk == talk
    ensures |r.speakerDetails| <= |SpeakerKeys(talk)|
    ensures talk.speakers.None? ==> r.speakerDetails == []
  {
    EnrichedTalk(talk, Resolve(store, SpeakerKeys(talk)))
  }

  /** Every talk enriched, in order. */
  function EnrichAll(store: Store, talks: seq<Talk>): (r: seq<EnrichedTalk>)
    ensures |r| == |talks|
  {
    if talks == [] then []
    else EnrichAll(store, talks[..|talks| - 1]) + [Enrich(store, talks[|talks| - 1])]
  }

  /**
   * The lower-cased query `lq` occurs in the lower-cased title, the
   * lower-cased category, or the lower-cased name of one of the resolved speakers.
   */
  ghost predicate TalkMatches(lq: string, enriched: EnrichedTalk)
  {
    Contains(Lower(enriched.talk.title), lq) ||
    Contains(Lower(enriched.talk.category), lq) ||
    exists i :: 0 <= i < |enriched.speakerDetails| && NameMatches(lq, enriched.speakerDetails[i])
  }

  ghost function TalkMatcher(lq: string): EnrichedTalk -> bool
  {
    enriched => TalkMatches(lq, enriched)
  }

  /** What the schedule returns for `query`. */
  ghost function Schedule(store: Store, query: Option<string>): seq<EnrichedTalk>
  {
    var all := EnrichAll(store, GetAllTalks(store));
    if IsBlank(query) then all else Filter(TalkMatcher(Lower(query.value)), all)
  }

  lemma EnrichAllStep(store: Store, talks: seq<Talk>, i: nat)
    requires i < |talks|
    ensures EnrichAll(store, talks[..i + 1]) == EnrichAll(store, talks[..i]) + [Enrich(store, talks[i])]
  {
    assert talks[..i + 1][..i] == talks[..i];
  }

  // ----- Implementation -----

  /** Whether `lq` occurs in the lower-cased name of any speaker in `details`, tried from the front. */
  function AnyNameOccurs(lq: string, details: seq<Speaker>): (r: bool)
    ensures r <==> exists i :: 0 <= i < |details| && NameMatches(lq, details[i])
  {
    if details == [] then false
    else
      OccursIffContains(lq, Lower(details[0].name));
      assert forall i :: 0 < i < |details| ==> details[1..][i - 1] == details[i];
      Occurs(lq, Lower(details[0].name)) || AnyNameOccurs(lq, details[1..])
  }

  /**
   * Whether the lower-cased query `lq` occurs in the lower-cased title, the
   * lower-cased category or the lower-cased name of one of the resolved speakers.
   */
  function MatchesQuery(lq: string, enriched: EnrichedTalk): (r: bool)
    ensures r <==> TalkMatches(lq, enriched)
  {
    OccursIffContains(lq, Lower(enriched.talk.title));
    OccursIffContains(lq, Lower(enriched.talk.category));
    var matchTitle := Occurs(lq, Lower(enriched.talk.title));
    var matchCategory := Occurs(lq, Lower(enriched.talk.category));
    var matchSpeaker := AnyNameOccurs(lq, enriched.speakerDetails);
    matchTitle || matchCategory || matchSpeaker
  }

  /** The speakers whose name contains the query, ignoring case; all speakers for a blank query. */
  method GetFilteredSpeakers(store: Store, query: Option<string>) returns (result: seq<Speaker>)
    ensures result == FilteredSpeakers(store, query)
    ensures IsBlank(query) ==> result == GetAllSpeakers(store)
  {
    var speakers := GetAllSpeakers(store);
    if IsBlank(query) {
      return speakers;
    }
    var lq := Lower(query.value);
    result := [];
    var i := 0;
    while i < |speakers|
      invariant i <= |speakers|
      invariant result == Filter(NameMatcher(lq), speakers[..i])
    {
      var speaker := speakers[i];
      OccursIffContains(lq, Lower(speaker.name));
      if Occurs(lq, Lower(speaker.name)) {
        result := result + [speaker];
      }
      assert speakers[..i + 1][..i] == speakers[..i];
      i := i + 1;
    }
    assert speakers[..i] == speakers;
  }

  /** The speaker details of a talk with speaker keys `keys`: each key looked up, the unknown ones skipped. */
  method ResolveSpeakerDetails(store: Store, keys: seq<string>) returns (details: seq<Speaker>)
    ensures details == Resolve(store, keys)
  {
    details := [];
    var j := 0;
    while j < |keys|
      invariant j <= |keys|
      invariant details == Resolve(store, keys[..j])
    {
      var speaker := GetSpeakerById(store, keys[j]);
      if speaker.Some? {
        details := details + [speaker.value];
      }
      assert keys[..j + 1][..j] == keys[..j];
      j := j + 1;
    }
    assert keys[..j] == keys;
  }

  /**
   * The talks, each enriched with its resolved speakers, that match the
   * query; every enriched talk for a blank query.
   */
  method GetSchedule(store: Store, query: Option<string>) returns (result: seq<EnrichedTalk>)
    ensures result == Schedule(store, query)
    ensures IsBlank(query) ==> result == EnrichAll(store, GetAllTalks(store))
  {
    var talks := GetAllTalks(store);
    result := [];
    var lq: Option<string> := if IsBlank(query) then None else Some(Lower(query.value));
    var i := 0;
    while i < |talks|
      invariant i <= |talks|
      invariant lq.None? <==> IsBlank(query)
      invariant lq.Some? ==> lq.value == Lower(query.value)
      invariant lq.None? ==> result == EnrichAll(store, talks[..i])
      invariant lq.Some? ==> result == Filter(TalkMatcher(lq.value), EnrichAll(store, talks[..i]))
    {
      var talk := talks[i];
      var details := ResolveSpeakerDetails(store, SpeakerKeys(talk));
      var enriched := EnrichedTalk(talk, details);
      EnrichAllStep(store, talks, i);
      if lq.Some? {
        FilterSnoc(TalkMatcher(lq.value), EnrichAll(store, talks[..i]), enriched);
        if MatchesQuery(lq.value, enriched) {
          result := result + [enriched];
        }
      } else {
        result := result + [enriched];
      }
      i := i + 1;
    }
    assert talks[..i] == talks;
  }

  // ----- Properties -----

  /**
   * For a non-blank query the speaker filter keeps exactly the speakers whose
   * lower-cased name contains the lower-cased query, in directory order.
   */
  lemma SpeakerFilterExact(store: Store, query: Option<string>)
    requires !IsBlank(query)
    ensures SubsequenceOf(FilteredSpeakers(store, query), GetAllSpeakers(store))
    ensures SelectsExactly(NameMatcher(Lower(query.value)), FilteredSpeakers(store, query), GetAllSpeakers(store))
    ensures forall speaker :: speaker in FilteredSpeakers(store, query) <==>
      speaker in GetAllSpeakers(store) && NameMatches(Lower(query.value), speaker)
  {
    var p := NameMatcher(Lower(query.value));
    FilterSelectsExactly(p, GetAllSpeakers(store));
    FilterMembership(p, GetAllSpeakers(store));
  }

  /** Filtering the speaker result again by the same query returns it unchanged. */
  lemma SpeakerFilterIdempotent(store: Store, query: Option<string>)
    requires !IsBlank(query)
    ensures Filter(NameMatcher(Lower(query.value)), FilteredSpeakers(store, query)) == FilteredSpeakers(store, query)
  {
    FilterIdempotent(NameMatcher(Lower(query.value)), GetAllSpeakers(store));
  }

  /**
   * Queries that lower-case to the same string give the same speakers and the
   * same schedule; in particular a query and its lower-cased form do.
   */
  lemma QueryCaseInsensitive(store: Store, a: string, b: string)
    requires Lower(a) == Lower(b)
    ensures FilteredSpeakers(store, Some(a)) == FilteredSpeakers(store, Some(b))
    ensures Schedule(store, Some(a)) == Schedule(store, Some(b))
    ensures FilteredSpeakers(store, Some(Lower(a))) == FilteredSpeakers(store, Some(a))
    ensures Schedule(store, Some(Lower(a))) == Schedule(store, Some(a))
  {
    LowerIdempotent(a);
    LowerIdempotent(b);
  }

  /** Resolving a concatenation of key lists concatenates the results: details follow key order. */
  lemma {:induction false} ResolveAppend(store: Store, a: seq<string>, b: seq<string>)
    ensures Resolve(store, a + b) == Resolve(store, a) + Resolve(store, b)
  {
    if b != [] {
      var n := |b| - 1;
      assert (a + b)[..|a + b| - 1] == a + b[..n];
      ResolveAppend(store, a, b[..n]);
    } else {
      assert a + b == a;
    }
  }

  /** A single key resolves to its speaker, or to nothing when the key is unknown. */
  lemma ResolveOne(store: Store, key: string)
    ensures Resolve(store, [key]) == match GetSpeakerById(store, key)
                                     case Some(speaker) => [speaker]
                                     case None => []
  {
  }

  /** A speaker is among the details exactly when one of the keys resolves to it. */
  lemma {:induction false} ResolveMembers(store: Store, keys: seq<string>)
    ensures forall speaker :: speaker in Resolve(store, keys) <==>
      exists k :: k in keys && GetSpeakerById(store, k) == Some(speaker)
  {
    if keys != [] {
      var n := |keys| - 1;
      ResolveMembers(store, keys[..n]);
      assert keys == keys[..n] + [keys[n]];
      forall speaker
        ensures speaker in Resolve(store, keys) <==>
          exists k :: k in keys && GetSpeakerById(store, k) == Some(speaker)
      {
        if exists k :: k in keys && GetSpeakerById(store, k) == Some(speaker) {
          var k :| k in keys && GetSpeakerById(store, k) == Some(speaker);
          if k != keys[n] {
            assert k in keys[..n];
          }
        }
      }
    }
  }

  /** When every key is known, the details hold one speaker per key, the i-th for the i-th key. */
  lemma {:induction false} ResolveAllKnown(store: Store, keys: seq<string>)
    requires forall k :: k in keys ==> k in Keys(store.speakers)
    ensures |Resolve(store, keys)| == |keys|
    ensures forall i :: 0 <= i < |keys| ==> GetSpeakerById(store, keys[i]) == Some(Resolve(store, keys)[i])
  {
    if keys != [] {
      var n := |keys| - 1;
      assert forall k :: k in keys[..n] ==> k in keys;
      ResolveAllKnown(store, keys[..n]);
      assert keys[n] in keys;
    }
  }

  /**
   * A talk matches through its speakers exactly when one of its keys resolves
   * to a speaker whose name matches; unknown keys never match.
   */
  lemma SpeakerMatchThroughKeys(store: Store, lq: string, talk: Talk)
    ensures (exists i :: 0 <= i < |Enrich(store, talk).speakerDetails| && NameMatches(lq, Enrich(store, talk).speakerDetails[i]))
      <==> exists k :: k in SpeakerKeys(talk) && GetSpeakerById(store, k).Some? && NameMatches(lq, GetSpeakerById(store, k).value)
  {
    var details := Enrich(store, talk).speakerDetails;
    ResolveMembers(store, SpeakerKeys(talk));
    if exists i :: 0 <= i < |details| && NameMatches(lq, details[i]) {
      var i :| 0 <= i < |details| && NameMatches(lq, details[i]);
      assert details[i] in details;
    }
    if exists k :: k in SpeakerKeys(talk) && GetSpeakerById(store, k).Some? && NameMatches(lq, GetSpeakerById(store, k).value) {
      var k :| k in SpeakerKeys(talk) && GetSpeakerById(store, k).Some? && NameMatches(lq, GetSpeakerById(store, k).value);
      var speaker := GetSpeakerById(store, k).value;
      assert speaker in details;
      var i :| 0 <= i < |details| && details[i] == speaker;
    }
  }

  /** Enriching a list of talks gives one enriched talk per talk, in the same order. */
  lemma {:induction false} EnrichAllShape(store: Store, talks: seq<Talk>)
    ensures |EnrichAll(store, talks)| == |talks|
    ensures forall i :: 0 <= i < |talks| ==> EnrichAll(store, talks)[i] == Enrich(store, talks[i])
  {
    if talks != [] {
      EnrichAllShape(store, talks[..|talks| - 1]);
    }
  }

  /**
   * For a blank query the schedule has every talk, in order, each unchanged
   * and carrying the speakers its keys resolve to.
   */
  lemma ScheduleBlankQuery(store: Store, query: Option<string>)
    requires IsBlank(query)
    ensures |Schedule(store, query)| == |GetAllTalks(store)|
    ensures forall i :: 0 <= i < |GetAllTalks(store)| ==>
      Schedule(store, query)[i].talk == GetAllTalks(store)[i] &&
      Schedule(store, query)[i].speakerDetails == Resolve(store, SpeakerKeys(GetAllTalks(store)[i]))
  {
    EnrichAllShape(store, GetAllTalks(store));
  }

  /**
   * For a non-blank query the schedule keeps, in order, exactly the enriched
   * talks whose title, category or resolved speaker name matches.
   */
  lemma ScheduleFilterExact(store: Store, query: Option<string>)
    requires !IsBlank(query)
    ensures SubsequenceOf(Schedule(store, query), Schedule(store, None))
    ensures SelectsExactly(TalkMatcher(Lower(query.value)), Schedule(store, query), Schedule(store, None))
    ensures forall enriched :: enriched in Schedule(store, query) <==>
      enriched in Schedule(store, None) && TalkMatches(Lower(query.value), enriched)
  {
    var p := TalkMatcher(Lower(query.value));
    FilterSelectsExactly(p, Schedule(store, None));
    FilterMembership(p, Schedule(store, None));
  }

  /** A talk whose enriched form matches a non-blank query is in that query's schedule. */
  lemma ScheduleKeepsMatch(store: Store, query: Option<string>, i: nat)
    requires !IsBlank(query)
    requires i < |store.talks|
    requires TalkMatches(Lower(query.value), Enrich(store, store.talks[i]))
    ensures Enrich(store, store.talks[i]) in Schedule(store, query)
  {
    ScheduleFilterExact(store, query);
    EnrichAllShape(store, store.talks);
    assert Schedule(store, None)[i] == Enrich(store, store.talks[i]);
  }

  /** Filtering the schedule result again by the same query returns it unchanged. */
  lemma ScheduleIdempotent(store: Store, query: Option<string>)
    requires !IsBlank(query)
    ensures Filter(TalkMatcher(Lower(query.value)), Schedule(store, query)) == Schedule(store, query)
  {
    FilterIdempotent(TalkMatcher(Lower(query.value)), Schedule(store, None));
  }
}
