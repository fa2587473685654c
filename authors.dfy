/**
 * The author profiles index.js builds from `about` messages (index.js:139-191)
 * and turns into `authors` rows at the end of the run (index.js:200-208).
 */
module Authors {
  import opened Wrappers
  import opened Json
  import opened Messages

  /** One entry of `cachedAuthorData`: each field absent until some message sets it to a string. */
  datatype Profile = Profile(name: Option<string>, description: Option<string>, image: Option<string>)

  /** The `{}` a first `about` message creates (index.js:158). */
  const NoProfile := Profile(None, None, None)

  datatype Field = Name | Description | Image

  function FieldOf(p: Profile, f: Field): Option<string> {
    match f
    case Name => p.name
    case Description => p.description
    case Image => p.image
  }

  /** `typeof v === "string"`: the only test `name` and `description` must pass to be copied. */
  function StringSetting(v: Value): (r: Option<string>)
    ensures r.Some? <==> TypeOf(v) == StringType
    ensures r.Some? ==> v == Str(r.value)
  {
    match v
    case Str(s) => Some(s)
    case _ => None
  }

  /**
   * The `switch (typeof value.content.image)` of index.js:173-188: what the
   * image field becomes, or None when it is left alone.
   *
   * AS WRITTEN, the object case tests `image.link === "string"`, comparing the
   * link with the literal text "string" where a `typeof` test was evidently
   * meant (index.js:182). So an object image is taken only when its link is
   * exactly "string", and then the image becomes "string".
   */
  function ImageSetting(image: Value): (r: Option<string>)
    ensures r.Some? <==>
              || TypeOf(image) == StringType
              || (TypeOf(image) == ObjectType && HasProperties(image) && Get(image, "link") == Str("string"))
    ensures TypeOf(image) == StringType ==> r == Some(image.s)
    ensures TypeOf(image) == ObjectType && r.Some? ==> r == Some("string")
  {
    match image
    case Str(s) => Some(s)
    case Arr(_) | Obj(_) =>
      var link := Get(image, "link");
      if link == Str("string") then Some(link.s) else None
    case _ => None
  }

  /**
   * The literal test of index.js:182 on concrete images: a blob link is
   * ignored, a link that is the text "string" is taken, a bare blob string is
   * taken.
   */
  lemma ImageLinkAsWritten()
    ensures ImageSetting(Obj(map["link" := Str("&blob.sha256")])) == None
    ensures ImageSetting(Obj(map["link" := Str("string")])) == Some("string")
    ensures ImageSetting(Str("&blob.sha256")) == Some("&blob.sha256")
    ensures ImageSetting(Null) == None
  {
  }

  /**
   * The object case of index.js:180-185 as its comment at index.js:170-172
   * describes it: an object image whose `link` holds a string (the blob id)
   * gives that string. This is not the test the code makes.
   */
  function ImageSettingIntended(image: Value): (r: Option<string>)
    ensures r.Some? <==>
              || TypeOf(image) == StringType
              || (TypeOf(image) == ObjectType && HasProperties(image) && TypeOf(Get(image, "link")) == StringType)
    ensures TypeOf(image) == StringType ==> r == Some(image.s)
    ensures TypeOf(image) == ObjectType && r.Some? ==> r == Some(Get(image, "link").s)
  {
    match image
    case Str(s) => Some(s)
    case Arr(_) | Obj(_) =>
      (match Get(image, "link")
       case Str(link) => Some(link)
       case _ => None)
    case _ => None
  }

  /**
   * The literal test and the described one part exactly on object images
   * whose link is a string other than "string": an image `{link: "blob123"}`
   * is dropped by the code but would be taken as described.
   */
  lemma ImageTestsDiffer(link: string)
    requires link != "string"
    ensures ImageSetting(Obj(map["link" := Str(link)])) == None
    ensures ImageSettingIntended(Obj(map["link" := Str(link)])) == Some(link)
    ensures ImageSetting(Obj(map["link" := Str("string")])) == ImageSettingIntended(Obj(map["link" := Str("string")]))
  {
  }

  /** What one `about` content sets field `f` to, or None when it leaves `f` alone. */
  function Setting(content: Value, f: Field): Option<string>
    requires HasProperties(content)
  {
    match f
    case Name => StringSetting(Get(content, "name"))
    case Description => StringSetting(Get(content, "description"))
    case Image => ImageSetting(Get(content, "image"))
  }

  /**
   * The field updates of one `about` message (index.js:163-188): each field
   * independently takes the message's setting, if any, and otherwise keeps
   * its value.
   */
  function ApplyAbout(p: Profile, content: Value): (r: Profile)
    requires HasProperties(content)
    ensures forall f: Field :: FieldOf(r, f) == if Setting(content, f).Some? then Setting(content, f) else FieldOf(p, f)
  {
    var name := Setting(content, Name);
    var description := Setting(content, Description);
    var image := Setting(content, Image);
    Profile(
      if name.Some? then name else p.name,
      if description.Some? then description else p.description,
      if image.Some? then image else p.image)
  }

  /**
   * Two `about` messages from one author, as the code is written: first a
   * name, then a description and an object image whose link is a blob id.
   * The name and description are kept, but the image is not (index.js:182).
   */
  lemma AboutScenarioAsWritten()
    ensures
      var first := Obj(map["type" := Str("about"), "name" := Str("Alice")]);
      var third := Obj(map["type" := Str("about"), "description" := Str("bio"),
                           "image" := Obj(map["link" := Str("blob123")])]);
      ApplyAbout(ApplyAbout(NoProfile, first), third) == Profile(Some("Alice"), Some("bio"), None)
  {
  }

  /** A sequence of `about` contents applied in order. */
  function ApplyAll(p: Profile, cs: seq<Value>): Profile
    requires forall i | 0 <= i < |cs| :: HasProperties(cs[i])
  {
    if cs == [] then p else ApplyAbout(ApplyAll(p, cs[..|cs| - 1]), cs[|cs| - 1])
  }

  /**
   * Last well-typed value wins, field by field: after a sequence of `about`
   * messages a field holds what the last message that set it set it to, or its
   * starting value if none did, whatever the messages did to other fields.
   */
  lemma {:induction false} LatestSettingWins(p: Profile, cs: seq<Value>, f: Field)
    requires forall i | 0 <= i < |cs| :: HasProperties(cs[i])
    ensures (forall i | 0 <= i < |cs| :: Setting(cs[i], f).None?) ==> FieldOf(ApplyAll(p, cs), f) == FieldOf(p, f)
    ensures forall i | 0 <= i < |cs| && Setting(cs[i], f).Some? ::
              (forall j | i < j < |cs| :: Setting(cs[j], f).None?) ==> FieldOf(ApplyAll(p, cs), f) == Setting(cs[i], f)
  {
    if cs != [] {
      var init, last := cs[..|cs| - 1], cs[|cs| - 1];
      assert forall i | 0 <= i < |init| :: init[i] == cs[i];
      LatestSettingWins(p, init, f);
      var before := FieldOf(ApplyAll(p, init), f);
      assert FieldOf(ApplyAll(p, cs), f) == if Setting(last, f).Some? then Setting(last, f) else before;
      forall i | 0 <= i < |cs| && Setting(cs[i], f).Some? && (forall j | i < j < |cs| :: Setting(cs[j], f).None?)
        ensures FieldOf(ApplyAll(p, cs), f) == Setting(cs[i], f)
      {
        if i < |init| {
          assert Setting(init[i], f).Some?;
          assert forall j | i < j < |init| :: Setting(init[j], f).None?;
        }
      }
    }
  }

  /** `cachedAuthorData` with the insertion order of its keys, which is the order `Object.entries` lists them in. */
  datatype AuthorMap = AuthorMap(profiles: map<Value, Profile>, order: seq<Value>)

  const NoAuthors := AuthorMap(map[], [])

  /** The order lists every key once and nothing else. */
  ghost predicate Valid(a: AuthorMap) {
    && (forall i, j | 0 <= i < j < |a.order| :: a.order[i] != a.order[j])
    && (forall k :: k in a.profiles <==> k in a.order)
  }

  /** `typeof value.content === "object"` and `value.content.type === "about"`, for content that is not null. */
  predicate IsAbout(content: Value) {
    && TypeOf(content) == ObjectType
    && HasProperties(content)
    && Get(content, "type") == Str("about")
  }

  /**
   * The aggregation step of one line (index.js:144-191): `null` content
   * crashes on reading `.type`; everything else succeeds. `ObserveEffect`
   * says what the step does to the map, `ObserveKeepsValid` that it keeps it
   * well formed.
   */
  function Observe(a: AuthorMap, author: Value, content: Value): (r: Result<AuthorMap, Crash>)
    ensures r.Failure? <==> content.Null?
    ensures r.Failure? ==> r.error == ReadPropertyOfNull
  {
    if TypeOf(content) != ObjectType then Success(a)
    else if content.Null? then Failure(ReadPropertyOfNull)
    else if Get(content, "type") != Str("about") then Success(a)
    else if author in a.profiles then
      Success(a.(profiles := a.profiles[author := ApplyAbout(a.profiles[author], content)]))
    else
      Success(AuthorMap(a.profiles[author := ApplyAbout(NoProfile, content)], a.order + [author]))
  }

  /**
   * Content that is not an object, or whose `type` is not "about", changes
   * nothing. An `about` message creates its author's entry if absent, even
   * when it then sets no field, applies its settings to that entry, and
   * touches no other entry.
   */
  lemma ObserveEffect(a: AuthorMap, author: Value, content: Value)
    requires !content.Null?
    ensures !IsAbout(content) ==> Observe(a, author, content) == Success(a)
    ensures IsAbout(content) ==>
              var r := Observe(a, author, content).value;
              && r.profiles.Keys == a.profiles.Keys + {author}
              && r.profiles[author] == ApplyAbout(if author in a.profiles then a.profiles[author] else NoProfile, content)
              && (forall k | k in a.profiles && k != author :: r.profiles[k] == a.profiles[k])
              && r.order == if author in a.profiles then a.order else a.order + [author]
  {
  }

  /** A new author is appended to the order once; a known author keeps their place. */
  lemma ObserveKeepsValid(a: AuthorMap, author: Value, content: Value)
    requires Valid(a) && !content.Null?
    ensures Valid(Observe(a, author, content).value)
  {
    ObserveEffect(a, author, content);
  }

  predicate NoNullContent(ds: seq<Decoded>) {
    forall i | 0 <= i < |ds| :: !ds[i].content.Null?
  }

  /** The author map after a run over the given decoded lines. */
  function Aggregate(ds: seq<Decoded>): (a: AuthorMap)
    requires NoNullContent(ds)
    ensures |a.order| <= |ds|
  {
    if ds == [] then NoAuthors
    else
      var last := ds[|ds| - 1];
      Observe(Aggregate(ds[..|ds| - 1]), last.row.author, last.content).value
  }

  /** Aggregating one more line is one more `Observe` step. */
  lemma AggregateStep(ds: seq<Decoded>, d: Decoded)
    requires NoNullContent(ds) && !d.content.Null?
    ensures NoNullContent(ds + [d])
    ensures Aggregate(ds + [d]) == Observe(Aggregate(ds), d.row.author, d.content).value
  {
    assert (ds + [d])[..|ds|] == ds;
  }

  /** The authors of the `about` messages among `ds`, each listed when first seen. */
  function FirstAuthors(ds: seq<Decoded>): seq<Value> {
    if ds == [] then []
    else
      var seen, last := FirstAuthors(ds[..|ds| - 1]), ds[|ds| - 1];
      if IsAbout(last.content) && last.row.author !in seen then seen + [last.row.author] else seen
  }

  /** The aggregated author map is well formed: every author is listed once, in the order they first appeared. */
  lemma {:induction false} AggregateValid(ds: seq<Decoded>)
    requires NoNullContent(ds)
    ensures Valid(Aggregate(ds))
    ensures Aggregate(ds).order == FirstAuthors(ds)
  {
    if ds != [] {
      var init, last := ds[..|ds| - 1], ds[|ds| - 1];
      assert NoNullContent(init);
      AggregateValid(init);
      ObserveKeepsValid(Aggregate(init), last.row.author, last.content);
      ObserveEffect(Aggregate(init), last.row.author, last.content);
    }
  }

  /** The contents of `author`'s `about` messages, in order. */
  function AboutContents(ds: seq<Decoded>, author: Value): (cs: seq<Value>)
    ensures forall i | 0 <= i < |cs| :: HasProperties(cs[i])
  {
    if ds == [] then []
    else
      var last := ds[|ds| - 1];
      AboutContents(ds[..|ds| - 1], author)
        + if IsAbout(last.content) && last.row.author == author then [last.content] else []
  }

  /**
   * The aggregation is a per-author fold: an author has an entry exactly when
   * they sent an `about` message, and the entry is their `about` messages
   * applied in order to `{}`.
   */
  lemma {:induction false} AggregateIsPerAuthor(ds: seq<Decoded>, author: Value)
    requires NoNullContent(ds)
    ensures author in Aggregate(ds).profiles <==> AboutContents(ds, author) != []
    ensures author in Aggregate(ds).profiles ==>
              Aggregate(ds).profiles[author] == ApplyAll(NoProfile, AboutContents(ds, author))
  {
    if ds != [] {
      var init, last := ds[..|ds| - 1], ds[|ds| - 1];
      assert NoNullContent(init);
      AggregateIsPerAuthor(init, author);
      var a, cs := Aggregate(init), AboutContents(init, author);
      var r := Observe(a, last.row.author, last.content);
      assert Aggregate(ds) == r.value;
      ObserveEffect(a, last.row.author, last.content);
      if !IsAbout(last.content) {
        assert r.value == a;
        assert AboutContents(ds, author) == cs;
      } else if last.row.author == author {
        assert AboutContents(ds, author) == cs + [last.content];
        assert (cs + [last.content])[..|cs|] == cs;
        assert author in r.value.profiles;
      } else {
        assert AboutContents(ds, author) == cs;
        assert author in r.value.profiles <==> author in a.profiles;
      }
    }
  }

  /** A row of the `authors` table. */
  datatype AuthorRow = AuthorRow(key: Value, name: Option<string>, image: Option<string>, description: Option<string>)

  /**
   * `Object.entries(cachedAuthorData).map(...)` (index.js:201-208): one row per
   * author, in insertion order, carrying that author's name, image and
   * description.
   */
  function AuthorRows(a: AuthorMap): (rows: seq<AuthorRow>)
    requires Valid(a)
    ensures |rows| == |a.profiles|
    ensures |rows| == |a.order| && forall i | 0 <= i < |rows| :: rows[i].key == a.order[i]
    ensures forall i, j | 0 <= i < j < |rows| :: rows[i].key != rows[j].key
    ensures forall k | k in a.profiles :: exists i | 0 <= i < |rows| :: rows[i].key == k
    ensures forall i | 0 <= i < |rows| ::
              var k := rows[i].key;
              k in a.profiles && rows[i] == AuthorRow(k, a.profiles[k].name, a.profiles[k].image, a.profiles[k].description)
  {
    DistinctCardinality(a.order);
    assert a.profiles.Keys == set k | k in a.order;
    var rows := seq(|a.order|, i requires 0 <= i < |a.order| && a.order[i] in a.profiles =>
      var k := a.order[i];
      var p := a.profiles[k];
      AuthorRow(k, p.name, p.image, p.description));
    assert forall i | 0 <= i < |rows| :: rows[i].key == a.order[i];
    rows
  }

  /** A sequence without repetitions has as many elements as it has distinct values. */
  lemma {:induction false} DistinctCardinality(s: seq<Value>)
    requires forall i, j | 0 <= i < j < |s| :: s[i] != s[j]
    ensures |set x | x in s| == |s|
  {
    if s != [] {
      var init := s[..|s| - 1];
      DistinctCardinality(init);
      assert (set x | x in s) == (set x | x in init) + {s[|s| - 1]};
      assert s[|s| - 1] !in init;
    }
  }
}
