/**
 * The fixture store: the event record, the speaker table and the talk list of
 * the conference, and the four read accessors over them. Nothing here changes
 * state; the accessors take the store they read as an explicit argument.
 */
module Repository {
  import opened Options

  datatype EventInfo = EventInfo(title: string, date: string, location: string, description: string)

  datatype Speaker = Speaker(name: string, role: string, linkedin: string)

  /** A talk; `speakers` is `None` when the record has no `speakers` field at all. */
  datatype Talk = Talk(
    id: string,
    title: string,
    speakers: Option<seq<string>>,
    category: string,
    description: string,
    time: string)

  /** A dictionary from speaker key to speaker, as its (key, value) pairs in insertion order. */
  type SpeakerTable = seq<(string, Speaker)>

  datatype Store = Store(event: EventInfo, speakers: SpeakerTable, talks: seq<Talk>)

  /** The keys of a speaker table, in insertion order. */
  function Keys(table: SpeakerTable): seq<string>
  {
    seq(|table|, i requires 0 <= i < |table| => table[i].0)
  }

  /** A dictionary holds each key once. */
  ghost predicate DistinctKeys(table: SpeakerTable)
  {
    forall i, j :: 0 <= i < j < |table| ==> table[i].0 != table[j].0
  }

  /** The ids of a list of talks are pairwise different. */
  ghost predicate DistinctIds(talks: seq<Talk>)
  {
    forall i, j :: 0 <= i < j < |talks| ==> talks[i].id != talks[j].id
  }

  /** Every speaker key any talk refers to is a key of the table. */
  ghost predicate ReferencesResolve(store: Store)
  {
    forall i, k :: 0 <= i < |store.talks| && k in store.talks[i].speakers.GetOr([]) ==>
      k in Keys(store.speakers)
  }

  const EVENT_INFO := EventInfo(
    "Google Cloud Tech Day 2025",
    "15 de Noviembre, 2025",
    "Centro de Convenciones Tech, Ciudad de México",
    "Un día completo dedicado a explorar las últimas innovaciones en Google Cloud Platform.")

  const ANA_GARCIA := Speaker("Ana García", "Cloud Architect", "https://linkedin.com/in/fake-ana-garcia")
  const CARLOS_LOPEZ := Speaker("Carlos López", "Data Engineer", "https://linkedin.com/in/fake-carlos-lopez")
  const MARIA_RODRIGUEZ := Speaker("María Rodríguez", "ML Specialist", "https://linkedin.com/in/fake-maria-rodriguez")
  const JAVIER_MARTINEZ := Speaker("Javier Martínez", "DevOps Engineer", "https://linkedin.com/in/fake-javier-martinez")
  const SOFIA_HERNANDEZ := Speaker("Sofia Hernández", "Security Expert", "https://linkedin.com/in/fake-sofia-hernandez")
  const MIGUEL_TORRES := Speaker("Miguel Torres", "Product Manager", "https://linkedin.com/in/fake-miguel-torres")
  const LAURA_DIAZ := Speaker("Laura Díaz", "Software Engineer", "https://linkedin.com/in/fake-laura-diaz")
  const DAVID_RUIZ := Speaker("David Ruiz", "CTO", "https://linkedin.com/in/fake-david-ruiz")

  const SPEAKERS: SpeakerTable := [
    ("s1", ANA_GARCIA), ("s2", CARLOS_LOPEZ), ("s3", MARIA_RODRIGUEZ), ("s4", JAVIER_MARTINEZ),
    ("s5", SOFIA_HERNANDEZ), ("s6", MIGUEL_TORRES), ("s7", LAURA_DIAZ), ("s8", DAVID_RUIZ)
  ]

  const TALKS: seq<Talk> := [
    Talk("t1", "Keynote: El Futuro de la Nube", Some(["s8"]), "General",
         "Visión general de las tendencias y el futuro de Google Cloud.", "09:00 - 10:00"),
    Talk("t2", "Arquitecturas Serverless Escalables", Some(["s1", "s7"]), "Infraestructura",
         "Cómo construir aplicaciones que escalan automáticamente con Cloud Run y Functions.", "10:15 - 11:00"),
    Talk("t3", "BigQuery para Analítica en Tiempo Real", Some(["s2"]), "Data",
         "Estrategias para procesar y analizar grandes volúmenes de datos al instante.", "11:15 - 12:00"),
    Talk("t4", "Machine Learning con Vertex AI", Some(["s3"]), "AI/ML",
         "Desarrollo y despliegue de modelos de ML simplificado.", "12:15 - 13:00"),
    Talk("lunch", "Almuerzo y Networking", Some([]), "Break",
         "Tiempo libre para comer y conectar con otros asistentes.", "13:00 - 14:00"),
    Talk("t5", "Seguridad en la Nube: Mejores Prácticas", Some(["s5"]), "Seguridad",
         "Protegiendo tus cargas de trabajo en GCP.", "14:00 - 14:45"),
    Talk("t6", "Kubernetes: De Cero a Héroe", Some(["s4", "s1"]), "Infraestructura",
         "Domina la orquestación de contenedores con GKE.", "15:00 - 15:45"),
    Talk("t7", "Innovación con Generative AI", Some(["s3", "s6"]), "AI/ML",
         "Casos de uso prácticos de IA generativa en empresas.", "16:00 - 16:45"),
    Talk("t8", "Cierre y Conclusiones", Some(["s6"]), "General",
         "Resumen del día y pasos a seguir.", "17:00 - 17:30")
  ]

  /** The store the service runs on. */
  const FIXTURE := Store(EVENT_INFO, SPEAKERS, TALKS)

  /** The event record (`get_event_info`), returned as stored. */
  function GetEventInfo(store: Store): (r: EventInfo)
    ensures r == store.event
  {
    store.event
  }

  /** The talks (`get_all_talks`), returned as stored and in schedule order. */
  function GetAllTalks(store: Store): (r: seq<Talk>)
    ensures r == store.talks
  {
    store.talks
  }

  /** Dictionary lookup (`dict.get`): the value stored under `key`, or `None`. */
  function Lookup(table: SpeakerTable, key: string): (r: Option<Speaker>)
    ensures r.None? <==> key !in Keys(table)
    ensures r.Some? ==> (key, r.value) in table
  {
    if table == [] then None
    else
      assert Keys(table) == [table[0].0] + Keys(table[1..]);
      if table[0].0 == key then Some(table[0].1) else Lookup(table[1..], key)
  }

  /** The speaker stored under `key`, or `None` when no speaker has that key. */
  function GetSpeakerById(store: Store, key: string): (r: Option<Speaker>)
    ensures r.None? <==> key !in Keys(store.speakers)
    ensures r.Some? ==> (key, r.value) in store.speakers
  {
    Lookup(store.speakers, key)
  }

  /** The speakers of the store, in table order (`list(SPEAKERS.values())`). */
  function GetAllSpeakers(store: Store): (r: seq<Speaker>)
    ensures |r| == |store.speakers|
    ensures forall i :: 0 <= i < |r| ==> (store.speakers[i].0, r[i]) in store.speakers
  {
    seq(|store.speakers|, i requires 0 <= i < |store.speakers| => store.speakers[i].1)
  }

  /** In a table with distinct keys, looking up a stored key returns the record stored with it. */
  lemma {:induction false} LookupFindsStored(table: SpeakerTable, i: nat)
    requires DistinctKeys(table)
    requires i < |table|
    ensures Lookup(table, table[i].0) == Some(table[i].1)
  {
    if i > 0 {
      assert table[0].0 != table[i].0;
      assert DistinctKeys(table[1..]) by {
        forall a, b | 0 <= a < b < |table| - 1 ensures table[1..][a].0 != table[1..][b].0 {
          assert table[a + 1].0 != table[b + 1].0;
        }
      }
      LookupFindsStored(table[1..], i - 1);
    }
  }

  /**
   * In a table with distinct keys, the speakers come out in key order: the
   * i-th speaker returned is the one stored under the i-th key.
   */
  lemma AllSpeakersInKeyOrder(store: Store)
    requires DistinctKeys(store.speakers)
    ensures |GetAllSpeakers(store)| == |Keys(store.speakers)|
    ensures forall i :: 0 <= i < |GetAllSpeakers(store)| ==>
      GetSpeakerById(store, Keys(store.speakers)[i]) == Some(GetAllSpeakers(store)[i])
  {
  }

  /** The fixture's speaker keys, in insertion order; no key appears twice. */
  lemma FixtureKeysDistinct()
    ensures Keys(SPEAKERS) == ["s1", "s2", "s3", "s4", "s5", "s6", "s7", "s8"]
    ensures DistinctKeys(SPEAKERS)
  {
  }

  /** No two fixture talks share an id. */
  lemma FixtureIdsDistinct()
    ensures DistinctIds(FIXTURE.talks)
  {
    assert FIXTURE.talks == TALKS;
    var ids := seq(|TALKS|, i requires 0 <= i < |TALKS| => TALKS[i].id);
    assert ids == ["t1", "t2", "t3", "t4", "lunch", "t5", "t6", "t7", "t8"];
    forall i, j | 0 <= i < j < |TALKS|
      ensures TALKS[i].id != TALKS[j].id
    {
      assert ids[i] == TALKS[i].id && ids[j] == TALKS[j].id;
    }
  }

  /** Every speaker key a fixture talk refers to is a key of the fixture's speaker table. */
  lemma FixtureReferencesResolve()
    ensures ReferencesResolve(FIXTURE)
  {
    FixtureKeysDistinct();
    assert FIXTURE.speakers == SPEAKERS;
    var keys := seq(|TALKS|, i requires 0 <= i < |TALKS| => TALKS[i].speakers.GetOr([]));
    assert keys == [["s8"], ["s1", "s7"], ["s2"], ["s3"], [], ["s5"], ["s4", "s1"], ["s3", "s6"], ["s6"]];
    forall i, k | 0 <= i < |FIXTURE.talks| && k in FIXTURE.talks[i].speakers.GetOr([])
      ensures k in Keys(FIXTURE.speakers)
    {
      assert keys[i] == FIXTURE.talks[i].speakers.GetOr([]);
    }
  }

  /**
   * The event accessor returns the fixture's event record, and the talk
   * accessor its nine talks in order, with the lunch break, which has no
   * speakers, fifth.
   */
  lemma FixtureEventAndTalks()
    ensures GetEventInfo(FIXTURE) == EVENT_INFO
    ensures GetAllTalks(FIXTURE) == TALKS && |TALKS| == 9
    ensures TALKS[4].id == "lunch" && TALKS[4].speakers == Some([])
  {
  }

  /** The speaker accessor returns the fixture's eight speakers in key order s1..s8. */
  lemma FixtureSpeakers()
    ensures GetAllSpeakers(FIXTURE) == [ANA_GARCIA, CARLOS_LOPEZ, MARIA_RODRIGUEZ, JAVIER_MARTINEZ,
                                        SOFIA_HERNANDEZ, MIGUEL_TORRES, LAURA_DIAZ, DAVID_RUIZ]
  {
  }
}
