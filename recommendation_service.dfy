/**
 * recommendation-service.js: the per-user genre lists. `getGenreList`
 * remembers the first list it reads in a field of the (single) service
 * object and answers from it ever after; `addTitleToGenreList` appends a
 * title to one genre's `titles` array, writes the document back and reports
 * the new element and the new length as PathValues.
 *
 * The recommendations store is a map from document id to document; a read
 * of a missing id is the store's `not_found` error, and revisions are
 * generation numbers.
 */
module RecommendationService {
  import opened Js
  import opened JsonGraph

  /** A recommendations document: its revision and its genre list. */
  datatype RecDoc = RecDoc(rev: nat, recommendations: Value)

  /** The recommendations store. */
  class RecommendationsDb {
    var docs: map<string, RecDoc>

    constructor (docs: map<string, RecDoc>)
      ensures this.docs == docs
    {
      this.docs := docs;
    }
  }

  /** `(userId || 'all').toString()`: the id of the document a genre-list
      read asks for; users without a truthy id read the shared list. */
  function GenreListKey(user: UserId): (key: string)
    ensures key != ""
    ensures user.User? && user.id != "" ==> key == user.id
    ensures !(user.User? && user.id != "") ==> key == "all"
  {
    if user.User? && user.id != "" then user.id else "all"
  }

  /** What `getGenreList(user)` answers given the memo and the stored
      documents: the memo when it is truthy, else the list of the document
      the user reads, else the store's `not_found`. */
  function ListRead(memo: Value, docs: map<string, RecDoc>, user: UserId): Result<Value> {
    if Truthy(memo) then Ok(memo)
    else if GenreListKey(user) in docs then Ok(docs[GenreListKey(user)].recommendations)
    else Err("not_found")
  }

  /** The memo after that read: a list read from the store is remembered,
      anything else leaves the memo as it was. */
  function Remembered(memo: Value, docs: map<string, RecDoc>, user: UserId): Value {
    if !Truthy(memo) && GenreListKey(user) in docs then docs[GenreListKey(user)].recommendations
    else memo
  }

  /** Once a read has remembered a truthy list, every later read, by any
      user, answers that list without looking at the store again. */
  lemma RememberedAnswersEveryone(memo: Value, docs: map<string, RecDoc>, user: UserId, other: UserId, docs': map<string, RecDoc>)
    requires ListRead(memo, docs, user).Ok? && Truthy(ListRead(memo, docs, user).value)
    ensures ListRead(Remembered(memo, docs, user), docs', other) == ListRead(memo, docs, user)
    ensures Remembered(Remembered(memo, docs, user), docs', other) == Remembered(memo, docs, user)
  {
  }

  /** The `titles` array of genre `g` of a genre list, when there is one. */
  function TitlesOf(recs: Value, g: Key): Option<seq<Value>> {
    match Get(recs, g)
    case Err(_) => None
    case Ok(genre) =>
      match Get(genre, Name("titles"))
      case Ok(Array(ts)) => Some(ts)
      case _ => None
  }

  /** `recommendations[genreIndex].titles.push(title)` on a genre list: the
      updated list and what `push` returns, the new length. Reading a
      property of null or undefined, or calling `push` on anything but an
      array, is a TypeError. */
  function AppendTitle(recs: Value, g: Key, title: Value): (r: Result<(Value, nat)>)
    ensures r.Err? <==> TitlesOf(recs, g).None?
    ensures r.Err? ==> r.error == TypeError
    ensures r.Ok? ==>
              var (recs', len) := r.value;
              var ts := TitlesOf(recs, g).value;
              // the title is appended to that genre's list, and the length grows by one
              && TitlesOf(recs', g) == Some(ts + [title])
              && len == |ts| + 1
              // the other fields of that genre are unchanged
              && (forall k :: KeyText(k) != "titles" ==> Get(Get(recs', g).value, k) == Get(Get(recs, g).value, k))
              // the other genres are unchanged
              && (forall g' :: KeyText(g') != KeyText(g) ==> Get(recs', g') == Get(recs, g'))
  {
    match Get(recs, g)
    case Err(e) => Err(e)
    case Ok(genre) =>
      match Get(genre, Name("titles"))
      case Ok(Array(ts)) =>
        var genre' := Put(genre, Name("titles"), Array(ts + [title]));
        Ok((Put(recs, g, genre'), |ts| + 1))
      case _ => Err(TypeError)
  }

  /** The two PathValues `addTitleToGenreList` reports for a push that left
      the list with `len` titles. */
  function PushPathValues(g: Key, title: Value, len: nat): seq<PathValue> {
    [ PathValue([Name("genrelist"), g, Name("titles"), Index(len - 1)], Val(title)),
      PathValue([Name("genrelist"), g, Name("titles"), Name("length")], Val(Num(len))) ]
  }

  /** The reported PathValues describe the list as written: following each
      path into the updated genre list finds the value reported for it. */
  lemma PushReportsWrittenList(recs: Value, g: Key, title: Value)
    requires AppendTitle(recs, g, title).Ok?
    ensures var (recs', len) := AppendTitle(recs, g, title).value;
            forall pv :: pv in PushPathValues(g, title, len) ==>
              ReadPath(Object(map["genrelist" := recs']), pv.path) == Ok(pv.value.v)
  {
    var (recs', len) := AppendTitle(recs, g, title).value;
    var ts := TitlesOf(recs', g).value;
    var genre' := Get(recs', g).value;
    var root := Object(map["genrelist" := recs']);
    var p0 := [Name("genrelist"), g, Name("titles"), Index(len - 1)];
    var p1 := [Name("genrelist"), g, Name("titles"), Name("length")];
    assert ReadPath(root, p0) == ReadPath(recs', p0[1..]);
    assert ReadPath(recs', p0[1..]) == ReadPath(genre', p0[2..]);
    assert ReadPath(genre', p0[2..]) == ReadPath(Array(ts), p0[3..]);
    assert ReadPath(root, p1) == ReadPath(recs', p1[1..]);
    assert ReadPath(recs', p1[1..]) == ReadPath(genre', p1[2..]);
    assert ReadPath(genre', p1[2..]) == ReadPath(Array(ts), p1[3..]);
    assert |ts| == len && ts[len - 1] == title;
    assert ReadPath(Array(ts), p0[3..]) == Ok(title);
    assert ReadPath(Array(ts), p1[3..]) == Ok(Num(len));
  }

  /** The genre-list service: one object for the whole server. */
  class GenreListService {
    /** `self.cache`: the remembered genre list, `undefined` at first. */
    var memo: Value
    const db: RecommendationsDb

    constructor (db: RecommendationsDb)
      ensures this.db == db && memo == Undefined
    {
      this.db := db;
      memo := Undefined;
    }

    /** `getGenreList(userId)`. */
    method GetGenreList(user: UserId) returns (r: Result<Value>)
      modifies this
      ensures r == ListRead(old(memo), db.docs, user) && memo == Remembered(old(memo), db.docs, user)
      // a truthy memo answers every caller, whoever they are, without reading the store
      ensures Truthy(old(memo)) ==> r == Ok(old(memo)) && memo == old(memo)
      // otherwise the user's document (or the shared one) is read and remembered
      ensures !Truthy(old(memo)) && GenreListKey(user) in db.docs ==>
                r == Ok(db.docs[GenreListKey(user)].recommendations) && memo == r.value
      ensures !Truthy(old(memo)) && GenreListKey(user) !in db.docs ==>
                r == Err("not_found") && memo == old(memo)
    {
      if Truthy(memo) {
        return Ok(memo);
      }
      var key := GenreListKey(user);
      if key !in db.docs {
        return Err("not_found");
      }
      memo := db.docs[key].recommendations;
      r := Ok(memo);
    }

    /** `addTitleToGenreList(userId, genreIndex, title)`: read the user's
        document, push the title onto that genre's list, write the document
        back under the revision read, and report the new element and the new
        length. The memo is left as it was. */
    method AddTitleToGenreList(user: string, g: Key, title: Value) returns (r: Result<seq<PathValue>>)
      modifies db
      ensures user !in old(db.docs) ==> r == Err("not_found") && db.docs == old(db.docs)
      ensures user in old(db.docs) && AppendTitle(old(db.docs[user]).recommendations, g, title).Err? ==>
                r == Err(TypeError) && db.docs == old(db.docs)
      ensures user in old(db.docs) && AppendTitle(old(db.docs[user]).recommendations, g, title).Ok? ==>
                var doc := old(db.docs[user]);
                var (recs', len) := AppendTitle(doc.recommendations, g, title).value;
                && db.docs == old(db.docs)[user := RecDoc(doc.rev + 1, recs')]
                && r == Ok(PushPathValues(g, title, len))
    {
      if user !in db.docs {
        return Err("not_found");
      }
      var doc := db.docs[user];
      var pushed := AppendTitle(doc.recommendations, g, title);
      assert pushed == AppendTitle(old(db.docs[user]).recommendations, g, title);
      if pushed.Err? {
        return Err(pushed.error);
      }
      var (recs', len) := pushed.value;
      db.docs := db.docs[user := RecDoc(doc.rev + 1, recs')];
      r := Ok(PushPathValues(g, title, len));
    }
  }

  /** A push does not reach the memo: after one user's list is remembered
      and a title is pushed onto it, the next read still answers the list
      without the title, and so does a read for another user who has no
      document of their own. */
  method PushLeavesMemoStale() returns (before: Result<Value>, pushed: Result<seq<PathValue>>, after: Result<Value>, other: Result<Value>, stored: Value)
    ensures before.Ok? && after == before && other == before
    ensures pushed.Ok?
    ensures stored != before.value
  {
    var list := Array([Object(map["name" := Str("Thrillers"), "titles" := Array([])])]);
    var db := new RecommendationsDb(map["1" := RecDoc(1, list)]);
    var service := new GenreListService(db);
    before := service.GetGenreList(User("1"));
    assert Get(list, Index(0)).value.fields["titles"] == Array([]);
    assert TitlesOf(list, Index(0)) == Some([]);
    pushed := service.AddTitleToGenreList("1", Index(0), Num(523));
    after := service.GetGenreList(User("1"));
    other := service.GetGenreList(User("2"));
    stored := db.docs["1"].recommendations;
    assert TitlesOf(stored, Index(0)) == Some([] + [Num(523)]);
  }
}
