/**
 * The static topic/layer catalog (`getTopicsList`) and the lookups the screens do
 * on it with Kotlin's `find` (MainActivity.kt, lines 63-97, 359-365, 431-435).
 */
module Catalog {
  import opened Options
  import opened Model

  /** A layer whose raw resources are `<name>` (Italian) and `<name>_en` (English). */
  function CatalogLayer(id: int32, name: string): Layer {
    Layer(id, "layer_name_" + name, name, Some(name + "_en"))
  }

  /** `getTopicsList()`: three topics with four, three and three layers. */
  function Topics(): (ts: seq<Topic>)
    ensures |ts| == 3 && ts[0].id == "default" && ts[1].id == "love" && ts[2].id == "thc"
    ensures forall t :: t in ts ==> |t.layers| == LayerCount(t.id)
  {
    [ Topic("default", "topic_name_default", Diversity3,
            [CatalogLayer(1, "default_1"), CatalogLayer(2, "default_2"),
             CatalogLayer(3, "default_3"), CatalogLayer(4, "default_4")]),
      Topic("love", "topic_name_love", LocalFireDepartment,
            [CatalogLayer(1, "love_1"), CatalogLayer(2, "love_2"), CatalogLayer(3, "love_3")]),
      Topic("thc", "topic_name_thc", Star,
            [CatalogLayer(1, "thc_1"), CatalogLayer(2, "thc_2"), CatalogLayer(3, "thc_3")]) ]
  }

  /** Kotlin's `List.find`: the first element satisfying `p`, or null when there is none. */
  function Find<T>(s: seq<T>, p: T -> bool): (r: Option<T>)
    ensures r.None? <==> forall i :: 0 <= i < |s| ==> !p(s[i])
    ensures r.Some? ==> exists i :: 0 <= i < |s| && s[i] == r.value && p(s[i]) &&
                                   forall j :: 0 <= j < i ==> !p(s[j])
  {
    if s == [] then None
    else if p(s[0]) then Some(s[0])
    else
      var r := Find(s[1..], p);
      assert r.Some? ==> exists i :: 0 <= i < |s| && s[i] == r.value && p(s[i]) &&
                                    forall j :: 0 <= j < i ==> !p(s[j]) by {
        if r.Some? {
          var i :| 0 <= i < |s| - 1 && s[1..][i] == r.value && p(s[1..][i]) &&
                   forall j :: 0 <= j < i ==> !p(s[1..][j]);
          assert s[i + 1] == r.value && p(s[i + 1]);
          assert forall j :: 0 <= j < i + 1 ==> !p(s[j]) by {
            forall j | 0 <= j < i + 1 ensures !p(s[j]) {
              if j > 0 { assert s[j] == s[1..][j - 1]; }
            }
          }
        }
      }
      r
  }

  /** `topics.find { it.id == topicId }` */
  function FindTopic(topics: seq<Topic>, topicId: string): (r: Option<Topic>)
    ensures r.None? <==> forall t :: t in topics ==> t.id != topicId
    ensures r.Some? ==> r.value in topics && r.value.id == topicId
  {
    Find(topics, (t: Topic) => t.id == topicId)
  }

  /**
   * `topic?.layers?.find { it.id == layerId }` with `topic` the first topic whose id is
   * `topicId`: null when either lookup misses.
   */
  function FindLayer(topics: seq<Topic>, topicId: string, layerId: int32): (r: Option<Layer>)
    ensures r.Some? ==> r.value.id == layerId &&
                        exists t :: t in topics && t.id == topicId && r.value in t.layers
    ensures (forall t :: t in topics ==> t.id != topicId) ==> r.None?
  {
    match FindTopic(topics, topicId)
    case None => None
    case Some(topic) => Find(topic.layers, (l: Layer) => l.id == layerId)
  }

  /** The number of layers the catalog gives each known topic, 0 for any other id. */
  function LayerCount(topicId: string): nat {
    if topicId == "default" then 4
    else if topicId == "love" || topicId == "thc" then 3
    else 0
  }

  /**
   * The catalog's shape: topic ids are distinct, each topic numbers its layers 1, 2, ...
   * in order, and every layer has an English variant of its resource.
   */
  lemma CatalogWellFormed()
    ensures forall i, j :: 0 <= i < j < |Topics()| ==> Topics()[i].id != Topics()[j].id
    ensures forall t :: t in Topics() ==>
              |t.layers| == LayerCount(t.id) &&
              forall k :: 0 <= k < |t.layers| ==> t.layers[k].id as int == k + 1
    ensures forall t, l :: t in Topics() && l in t.layers ==>
              l.resourceEn == Some(l.resource + "_en")
  {
  }

  /**
   * A question screen finds its layer exactly for the topic ids of the catalog and the
   * layer numbers 1 .. LayerCount(topicId); any other pair finds nothing.
   */
  lemma FindLayerInCatalog(topicId: string, layerId: int32)
    ensures FindLayer(Topics(), topicId, layerId).Some? <==>
              1 <= layerId as int <= LayerCount(topicId)
  {
  }
}
