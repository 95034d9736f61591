/**
 * The route handlers of index.js (`NetflixRouterBase`): how each one turns
 * what the services answer into JSON Graph PathValues or an envelope.
 *
 * A handler throwing (an authorisation failure, or a property read of
 * null/undefined) is an `Err`; the router's pattern matching and dispatch
 * are not modelled: each handler receives the already matched keys.
 */
module Routes {
  import opened Js
  import opened JsonGraph
  import opened Rows
  import opened RatingService
  import opened RecommendationService

  const TitlesById := Name("titlesById")
  const UserRating := Name("userRating")
  const GenreList := Name("genrelist")
  const Titles := Name("titles")
  const Length := Name("length")

  const NotAuthorized := "not authorized"

  // ------------------------------------------------- concatenating PathValues

  /** The per-element answers of a handler, concatenated in order; the first
      one that threw makes the handler throw. */
  function Concat(blocks: seq<Result<seq<PathValue>>>): Result<seq<PathValue>> {
    if blocks == [] then Ok([])
    else
      var n := |blocks| - 1;
      match Concat(blocks[..n])
      case Err(e) => Err(e)
      case Ok(prev) =>
        match blocks[n]
        case Err(e) => Err(e)
        case Ok(b) => Ok(prev + b)
  }

  /** Once a prefix of the answers threw, so did the whole handler. */
  lemma {:induction false} ConcatSticky(blocks: seq<Result<seq<PathValue>>>, k: nat)
    requires k <= |blocks| && Concat(blocks[..k]).Err?
    ensures Concat(blocks) == Concat(blocks[..k])
    decreases |blocks| - k
  {
    if k < |blocks| {
      assert blocks[..k + 1][..k] == blocks[..k];
      ConcatSticky(blocks, k + 1);
    } else {
      assert blocks[..k] == blocks;
    }
  }

  /** One more answer, after a prefix that did not throw. */
  lemma ConcatStep(blocks: seq<Result<seq<PathValue>>>, k: nat)
    requires k < |blocks|
    ensures Concat(blocks[..k + 1]) ==
              match Concat(blocks[..k])
              case Err(e) => Err(e)
              case Ok(prev) => (match blocks[k] case Err(e) => Err(e) case Ok(b) => Ok(prev + b))
  {
    assert blocks[..k + 1][..k] == blocks[..k];
  }

  /** The handler throws exactly when one of the answers does. */
  lemma {:induction false} ConcatOk(blocks: seq<Result<seq<PathValue>>>)
    ensures Concat(blocks).Ok? <==> forall a :: 0 <= a < |blocks| ==> blocks[a].Ok?
  {
    if blocks != [] {
      var n := |blocks| - 1;
      ConcatOk(blocks[..n]);
      assert forall a :: 0 <= a < n ==> blocks[..n][a] == blocks[a];
    }
  }

  /** A path an answer accounts for is accounted for by the concatenation. */
  lemma {:induction false} ConcatCovers(blocks: seq<Result<seq<PathValue>>>, a: nat, p: Path)
    requires a < |blocks| && Concat(blocks).Ok? && blocks[a].Ok? && Covers(blocks[a].value, p)
    ensures Covers(Concat(blocks).value, p)
  {
    var n := |blocks| - 1;
    var init := blocks[..n];
    var whole := Concat(blocks).value;
    if a < n {
      assert init[a] == blocks[a];
      ConcatCovers(init, a, p);
      var prev := Concat(init).value;
      var i :| 0 <= i < |prev| && IsPrefix(prev[i].path, p);
      assert whole[i] == prev[i];
    } else {
      var prev := Concat(init).value;
      var i :| 0 <= i < |blocks[n].value| && IsPrefix(blocks[n].value[i].path, p);
      assert whole[|prev| + i] == blocks[n].value[i];
    }
  }

  /** When every answer holds `m` PathValues, the concatenation holds
      `|blocks| * m`. */
  lemma {:induction false} ConcatUniformLength(blocks: seq<Result<seq<PathValue>>>, m: nat)
    requires forall a :: 0 <= a < |blocks| ==> blocks[a].Ok? && |blocks[a].value| == m
    ensures Concat(blocks).Ok? && |Concat(blocks).value| == |blocks| * m
  {
    if blocks != [] {
      var n := |blocks| - 1;
      var init := blocks[..n];
      assert forall a :: 0 <= a < n ==> init[a] == blocks[a];
      ConcatUniformLength(init, m);
      assert |blocks| * m == n * m + m;
    }
  }

  /** Where answer `a`'s `b`-th PathValue sits when every answer holds `m`. */
  function Position(a: nat, m: nat, b: nat): nat {
    a * m + b
  }

  /** ... and answer `a`'s `b`-th PathValue sits at position `a * m + b`. */
  lemma {:induction false} ConcatUniformAt(blocks: seq<Result<seq<PathValue>>>, m: nat, a: nat, b: nat)
    requires forall a :: 0 <= a < |blocks| ==> blocks[a].Ok? && |blocks[a].value| == m
    requires a < |blocks| && b < m
    ensures Concat(blocks).Ok? && Position(a, m, b) < |Concat(blocks).value|
    ensures Concat(blocks).value[Position(a, m, b)] == blocks[a].value[b]
  {
    var n := |blocks| - 1;
    var init := blocks[..n];
    assert forall a :: 0 <= a < n ==> init[a] == blocks[a];
    ConcatUniformLength(init, m);
    ConcatUniformLength(blocks, m);
    var prev := Concat(init).value;
    assert Concat(blocks).value == prev + blocks[n].value;
    if a < n {
      SlotBefore(a, n, m, b);
      ConcatUniformAt(init, m, a, b);
    } else {
      assert a * m + b == |prev| + b;
    }
  }

  lemma SlotBefore(a: nat, n: nat, m: nat, b: nat)
    requires a < n && b < m
    ensures a * m + b < n * m
  {
    assert (a + 1) * m == a * m + m;
    assert (a + 1) * m <= n * m;
  }

  // ------------------------------------------------- titlesById[..].userRating

  /** The PathValue for one title of a `userRating` get, by the row found for it. */
  function RatingPathValue(titleId: int, row: Row): (pv: PathValue)
    // the PathValue sits at the requested path or at its title
    ensures IsPrefix(pv.path, [TitlesById, Index(titleId), UserRating]) && |pv.path| >= 2
    // only a failure other than `not_found` is an error, and it sits on the title
    ensures pv.value.Error? <==> row.Fault? && row.error != NotFound
    ensures pv.value.Error? <==> |pv.path| == 2
    ensures row.Doc? ==> pv.value == Val(Field(row.doc, "rating"))
    ensures row.Fault? && row.error == NotFound ==> pv.value == UndefinedMarker
    ensures pv.value.Error? ==> pv.value.cause == Str(row.error)
  {
    var path := [TitlesById, Index(titleId), UserRating];
    match row
    case Doc(_, _, doc) => PathValue(path, Val(Field(doc, "rating")))
    case Fault(_, e) =>
      if e == NotFound then PathValue(path, UndefinedMarker)
      else PathValue(path[..2], Error(Str(e)))
  }

  /** `userRating` get once the ratings arrived: one PathValue per requested
      title, in request order; a title with no entry in `ratings` makes the
      handler throw. */
  function UserRatingGet(titleIds: seq<int>, ratings: map<string, Row>): (r: Result<seq<PathValue>>)
    ensures r.Ok? <==> forall i :: 0 <= i < |titleIds| ==> Decimal(titleIds[i]) in ratings
    ensures r.Err? ==> r.error == TypeError
    ensures r.Ok? ==> |r.value| == |titleIds|
    ensures r.Ok? ==> forall i :: 0 <= i < |titleIds| ==>
              var row := ratings[Decimal(titleIds[i])];
              var path := [TitlesById, Index(titleIds[i]), UserRating];
              // a found rating sits at the rating's own path
              && (row.Doc? ==> r.value[i] == PathValue(path, Val(Field(row.doc, "rating"))))
              // a missing document is known to hold nothing there
              && (row.Fault? && row.error == NotFound ==> r.value[i] == PathValue(path, UndefinedMarker))
              // any other failure is an error on the title itself
              && (row.Fault? && row.error != NotFound ==>
                    r.value[i] == PathValue([TitlesById, Index(titleIds[i])], Error(Str(row.error))))
  {
    if forall i :: 0 <= i < |titleIds| ==> Decimal(titleIds[i]) in ratings then
      Ok(seq(|titleIds|, i requires 0 <= i < |titleIds| => RatingPathValue(titleIds[i], ratings[Decimal(titleIds[i])])))
    else Err(TypeError)
  }

  /** Every requested rating path is accounted for, at the path or at the
      title above it. */
  lemma UserRatingGetCovers(titleIds: seq<int>, ratings: map<string, Row>, i: nat)
    requires i < |titleIds| && UserRatingGet(titleIds, ratings).Ok?
    ensures Covers(UserRatingGet(titleIds, ratings).value, [TitlesById, Index(titleIds[i]), UserRating])
  {
    var pvs := UserRatingGet(titleIds, ratings).value;
    assert IsPrefix(pvs[i].path, [TitlesById, Index(titleIds[i]), UserRating]);
  }

  /** The `userRating` get route: read the ratings, then answer. When the
      store answers one row per requested key, as it does, it never throws. */
  method UserRatingGetRoute(user: UserId, titleIds: seq<int>, rows: seq<Row>) returns (r: Result<seq<PathValue>>)
    ensures r == UserRatingGet(titleIds, RatingsIndex(user, rows))
    ensures Echoes(user, seq(|titleIds|, i requires 0 <= i < |titleIds| => Decimal(titleIds[i])), rows) ==> r.Ok?
  {
    var ratings := GetRatings(user, rows);
    if Echoes(user, seq(|titleIds|, i requires 0 <= i < |titleIds| => Decimal(titleIds[i])), rows) {
      RatingsByTitle(user, titleIds, rows);
    }
    r := UserRatingGet(titleIds, ratings);
  }

  /** The PathValue the `userRating` set reports for one title. */
  function SetPathValue(id: string, e: Entry): (pv: PathValue)
    // the PathValue sits at the title's `userRating` exactly when the entry holds no error ...
    ensures IsPrefix([TitlesById, Name(id)], pv.path)
    ensures |pv.path| == 3 <==> !EntryError(e)
    ensures !EntryError(e) ==> pv.path[2] == UserRating && pv.value == Val(Field(e.row.doc, "rating"))
    // ... and otherwise is an error on the title: a refused write's message, or
    // `undefined` for a failed read, whose row has no `message`
    ensures EntryError(e) ==> |pv.path| == 2 && pv.value.Error?
    ensures e.Failed? ==> pv.value == Error(Str(e.message))
    ensures e.Read? && e.row.Fault? ==> pv.value == Error(Undefined)
  {
    if !EntryError(e) then PathValue([TitlesById, Name(id), UserRating], Val(Field(e.row.doc, "rating")))
    else PathValue([TitlesById, Name(id)], Error(if e.Failed? then Str(e.message) else Undefined))
  }

  /** `ids.map(...)` of the `userRating` set over the answer of `setRatings`. */
  function SetPathValues(ids: seq<string>, results: map<string, Entry>): (r: Result<seq<PathValue>>)
    ensures r.Ok? <==> Elems(ids) <= results.Keys
    ensures r.Ok? ==> |r.value| == |ids| && forall i :: 0 <= i < |ids| ==> r.value[i] == SetPathValue(ids[i], results[ids[i]])
  {
    if forall i :: 0 <= i < |ids| ==> ids[i] in results then
      Ok(seq(|ids|, i requires 0 <= i < |ids| => SetPathValue(ids[i], results[ids[i]])))
    else Err(TypeError)
  }

  /** The `userRating` set route. `ids` are the keys of
      `jsonGraph.titlesById` in order and `ratings` their `userRating`
      values; `rows` and `writes` are the store's answers to the read and to
      the write of `written`. Only an `undefined` user is refused. A title
      whose document existed is reported with the rating read before the
      write. */
  method UserRatingSet(user: UserId, ids: seq<string>, ratings: map<string, int>, rows: seq<Row>, writes: seq<WriteResult>)
    returns (r: Result<seq<PathValue>>, written: seq<WriteDoc>)
    requires Elems(ids) == ratings.Keys && forall i, j :: 0 <= i < j < |ids| ==> ids[i] != ids[j]
    requires Echoes(user, ids, rows) && |writes| == |ids|
    // the guard runs before the service is called
    ensures user.UndefinedUser? ==> r == Err(NotAuthorized) && written == []
    ensures !user.UndefinedUser? ==> written == WriteDocs(user, ids, ratings, rows)
    ensures !user.UndefinedUser? ==> r.Ok? && |r.value| == |ids|
    ensures !user.UndefinedUser? ==> forall i :: 0 <= i < |ids| ==>
              // over an existing document, the rating it held before the write
              && (writes[i].Written? && rows[i].Doc? ==>
                    r.value[i] == PathValue([TitlesById, Name(ids[i]), UserRating], Val(Field(rows[i].doc, "rating"))))
              // for a new document, the clamped rating written
              && (writes[i].Written? && rows[i].Fault? ==>
                    r.value[i] == PathValue([TitlesById, Name(ids[i]), UserRating], Val(Num(Coerce(ratings[ids[i]])))))
              // a refused write is an error on the title, carrying the store's message
              && (writes[i].Refused? ==>
                    r.value[i] == PathValue([TitlesById, Name(ids[i])], Error(Str(writes[i].message))))
  {
    if user.UndefinedUser? {
      return Err(NotAuthorized), [];
    }
    written := WriteDocs(user, ids, ratings, rows);
    SetResultsPerTitle(AsWritten, user, ids, ratings, rows, writes);
    var results := AssembleSetResults(AsWritten, user, ratings, rows, writes);
    r := SetPathValues(ids, results);
  }

  /** The `userRating` set route as intended: every successful write is
      reported with the clamped rating written. */
  method UserRatingSetIntended(user: UserId, ids: seq<string>, ratings: map<string, int>, rows: seq<Row>, writes: seq<WriteResult>)
    returns (r: Result<seq<PathValue>>, written: seq<WriteDoc>)
    requires Elems(ids) == ratings.Keys && forall i, j :: 0 <= i < j < |ids| ==> ids[i] != ids[j]
    requires Echoes(user, ids, rows) && |writes| == |ids|
    ensures user.UndefinedUser? ==> r == Err(NotAuthorized) && written == []
    ensures !user.UndefinedUser? ==> written == WriteDocs(user, ids, ratings, rows)
    ensures !user.UndefinedUser? ==> r.Ok? && |r.value| == |ids|
    ensures !user.UndefinedUser? ==> forall i :: 0 <= i < |ids| ==>
              // a stored rating is reported clamped, at the title's rating path
              && (writes[i].Written? ==>
                    r.value[i] == PathValue([TitlesById, Name(ids[i]), UserRating], Val(Num(Coerce(ratings[ids[i]])))))
              && (writes[i].Refused? ==>
                    r.value[i] == PathValue([TitlesById, Name(ids[i])], Error(Str(writes[i].message))))
  {
    if user.UndefinedUser? {
      return Err(NotAuthorized), [];
    }
    written := WriteDocs(user, ids, ratings, rows);
    SetResultsPerTitle(Intended, user, ids, ratings, rows, writes);
    var results := AssembleSetResults(Intended, user, ratings, rows, writes);
    r := SetPathValues(ids, results);
  }

  /** Overwriting a stored rating of 2 with 4: the route as written reports
      2, the intended one reports 4. */
  method OverwriteReportsOldRating() returns (asWritten: Result<seq<PathValue>>, intended: Result<seq<PathValue>>)
    ensures asWritten == Ok([PathValue([TitlesById, Name("7"), UserRating], Val(Num(2)))])
    ensures intended == Ok([PathValue([TitlesById, Name("7"), UserRating], Val(Num(4)))])
  {
    var user := User("1");
    var rows := [Doc("1,7", "1-a", map["rating" := Num(2)])];
    var writes := [Written("1,7", "2-b")];
    assert EncodeKey(user, "7") == "1,7";
    assert Elems(["7"]) == {"7"};
    var written;
    asWritten, written := UserRatingSet(user, ["7"], map["7" := 4], rows, writes);
    intended, written := UserRatingSetIntended(user, ["7"], map["7" := 4], rows, writes);
    assert Field(rows[0].doc, "rating") == Num(2);
    assert Coerce(4) == 4;
    assert |asWritten.value| == 1 && asWritten.value == [asWritten.value[0]];
    assert |intended.value| == 1 && intended.value == [intended.value[0]];
  }

  // ------------------------------------------------- genrelist[..]['name', ...]

  /** `{path: ['genrelist', index, key], value: genrelist[index][key]}` for a
      genre that is there. */
  function NamePathValue(list: Value, index: int, key: string): PathValue
    requires !Nullish(list)
  {
    PathValue([GenreList, Index(index), Name(key)], Val(Get(list, Name(key)).value))
  }

  /** Reading `[index, key]` from the genre list is reading `key` from its
      genre `index`. */
  lemma ReadKeys(genrelist: Value, index: int, keys: seq<string>)
    ensures forall j :: 0 <= j < |keys| ==>
              ReadPath(genrelist, [Index(index), Name(keys[j])]) ==
                (match Get(genrelist, Index(index)) case Err(e) => Err(e) case Ok(list) => Get(list, Name(keys[j])))
  {
    forall j | 0 <= j < |keys| ensures ReadPath(genrelist, [Index(index), Name(keys[j])]) ==
                                       match Get(genrelist, Index(index)) case Err(e) => Err(e) case Ok(list) => Get(list, Name(keys[j])) {
      ReadPath2(genrelist, Index(index), Name(keys[j]));
    }
  }

  /** What the name route answers for one index: an atom of the genre itself
      when it is null or undefined, otherwise one PathValue per requested key. */
  function NamesBlock(genrelist: Value, index: int, keys: seq<string>): (r: Result<seq<PathValue>>)
    // only a null or undefined genre list makes `genrelist[index]` throw
    ensures r.Err? <==> Nullish(genrelist)
    ensures r.Err? ==> r.error == TypeError
    ensures r.Ok? && Nullish(Get(genrelist, Index(index)).value) ==>
              r.value == [PathValue([GenreList, Index(index)], Atom(Get(genrelist, Index(index)).value))]
    // otherwise each requested key, in order, with what reading it from the genre list gives
    ensures r.Ok? && !Nullish(Get(genrelist, Index(index)).value) ==>
              && |r.value| == |keys|
              && forall j :: 0 <= j < |keys| ==>
                   && r.value[j].path == [GenreList, Index(index), Name(keys[j])]
                   && r.value[j].value.Val?
                   && ReadPath(genrelist, [Index(index), Name(keys[j])]) == Ok(r.value[j].value.v)
  {
    ReadKeys(genrelist, index, keys);
    match Get(genrelist, Index(index))
    case Err(e) => Err(e)
    case Ok(list) =>
      if Nullish(list) then Ok([PathValue([GenreList, Index(index)], Atom(list))])
      else Ok(seq(|keys|, j requires 0 <= j < |keys| => NamePathValue(list, index, keys[j])))
  }

  function NamesBlocks(genrelist: Value, indices: seq<int>, keys: seq<string>): seq<Result<seq<PathValue>>> {
    seq(|indices|, a requires 0 <= a < |indices| => NamesBlock(genrelist, indices[a], keys))
  }

  /** The requested keys of one genre that is there, pushed in order. */
  method GenreKeys(list: Value, index: int, keys: seq<string>) returns (results: seq<PathValue>)
    requires !Nullish(list)
    ensures results == seq(|keys|, j requires 0 <= j < |keys| => NamePathValue(list, index, keys[j]))
  {
    results := [];
    for j := 0 to |keys|
      invariant |results| == j
      invariant forall m :: 0 <= m < j ==> results[m] == NamePathValue(list, index, keys[m])
    {
      results := results + [PathValue([GenreList, Index(index), Name(keys[j])], Val(Get(list, Name(keys[j])).value))];
    }
  }

  /** The name route once the genre list arrived: the per-index answers,
      pushed key by key and concatenated in index order. */
  method GenreNames(genrelist: Value, indices: seq<int>, keys: seq<string>) returns (r: Result<seq<PathValue>>)
    ensures r == Concat(NamesBlocks(genrelist, indices, keys))
  {
    ghost var blocks := NamesBlocks(genrelist, indices, keys);
    var acc: seq<PathValue> := [];
    for a := 0 to |indices|
      invariant Concat(blocks[..a]) == Ok(acc)
    {
      ConcatStep(blocks, a);
      var index := indices[a];
      var got := Get(genrelist, Index(index));
      if got.Err? {
        ConcatSticky(blocks, a + 1);
        return Err(got.error);
      }
      var list := got.value;
      assert blocks[a] == NamesBlock(genrelist, index, keys);
      if Nullish(list) {
        acc := acc + [PathValue([GenreList, Index(index)], Atom(list))];
      } else {
        var results := GenreKeys(list, index, keys);
        assert blocks[a] == Ok(results);
        acc := acc + results;
      }
    }
    assert blocks[..|indices|] == blocks;
    r := Ok(acc);
  }

  /** The name route throws exactly when the genre list itself is null or
      undefined and some index was asked for; otherwise every requested
      `[genrelist, index, key]` is accounted for, by its own PathValue or by
      the atom at `[genrelist, index]`. */
  lemma GenreNamesOutcome(genrelist: Value, indices: seq<int>, keys: seq<string>)
    ensures Concat(NamesBlocks(genrelist, indices, keys)).Err? <==> |indices| > 0 && Nullish(genrelist)
    ensures Concat(NamesBlocks(genrelist, indices, keys)).Ok? ==>
              forall a, j :: 0 <= a < |indices| && 0 <= j < |keys| ==>
                Covers(Concat(NamesBlocks(genrelist, indices, keys)).value, [GenreList, Index(indices[a]), Name(keys[j])])
  {
    var blocks := NamesBlocks(genrelist, indices, keys);
    ConcatOk(blocks);
    if |indices| > 0 && Nullish(genrelist) {
      assert blocks[0].Err?;
    }
    if Concat(blocks).Ok? {
      forall a, j | 0 <= a < |indices| && 0 <= j < |keys|
        ensures Covers(Concat(blocks).value, [GenreList, Index(indices[a]), Name(keys[j])])
      {
        var p := [GenreList, Index(indices[a]), Name(keys[j])];
        var b := blocks[a].value;
        assert IsPrefix(b[if |b| == 1 && b[0].value.Atom? then 0 else j].path, p);
        ConcatCovers(blocks, a, p);
      }
    }
  }

  // ------------------------------------------------- genrelist[..].titles[..]

  /** `genrelist[index].titles[titleIndex]` and the PathValue made of it: an
      atom of a null or undefined slot, else a reference to the title.
      A null genre or titles list makes the read throw. */
  function TitleSlot(genrelist: Value, index: int, titleIndex: int): (r: Result<PathValue>)
    // it throws exactly when reading `genrelist[index].titles[titleIndex]` does
    ensures r.Err? <==> ReadPath(genrelist, [Index(index), Titles, Index(titleIndex)]).Err?
    ensures r.Err? ==> r.error == TypeError
    ensures r.Ok? ==> r.value.path == [GenreList, Index(index), Titles, Index(titleIndex)]
    // a null or undefined slot is an atom of itself, any other id a reference to its title
    ensures r.Ok? ==>
              var titleID := ReadPath(genrelist, [Index(index), Titles, Index(titleIndex)]).value;
              r.value.value == if Nullish(titleID) then Atom(titleID) else Ref([Str("titlesById"), titleID])
  {
    var path := [GenreList, Index(index), Titles, Index(titleIndex)];
    ReadPath3(genrelist, Index(index), Titles, Index(titleIndex));
    match Get(genrelist, Index(index))
    case Err(e) => Err(e)
    case Ok(list) =>
      ReadPath2(list, Titles, Index(titleIndex));
      match Get(list, Titles)
      case Err(e) => Err(e)
      case Ok(titles) =>
        match Get(titles, Index(titleIndex))
        case Err(e) => Err(e)
        case Ok(titleID) =>
          if Nullish(titleID) then Ok(PathValue(path, Atom(titleID)))
          else Ok(PathValue(path, Ref([Str("titlesById"), titleID])))
  }

  function Single(slot: Result<PathValue>): Result<seq<PathValue>> {
    match slot
    case Err(e) => Err(e)
    case Ok(pv) => Ok([pv])
  }

  function SlotBlocks(genrelist: Value, index: int, titleIndices: seq<int>): seq<Result<seq<PathValue>>> {
    seq(|titleIndices|, b requires 0 <= b < |titleIndices| => Single(TitleSlot(genrelist, index, titleIndices[b])))
  }

  function TitleBlocks(genrelist: Value, indices: seq<int>, titleIndices: seq<int>): seq<Result<seq<PathValue>>> {
    seq(|indices|, a requires 0 <= a < |indices| => Concat(SlotBlocks(genrelist, indices[a], titleIndices)))
  }

  /** The inner loop of the titles route, for one genre index: the slots
      of the requested title indices, in order, up to the first read that
      throws. */
  method GenreSlots(genrelist: Value, index: int, titleIndices: seq<int>) returns (r: Result<seq<PathValue>>)
    ensures r == Concat(SlotBlocks(genrelist, index, titleIndices))
  {
    ghost var slots := SlotBlocks(genrelist, index, titleIndices);
    var pathValues: seq<PathValue> := [];
    for b := 0 to |titleIndices|
      invariant Concat(slots[..b]) == Ok(pathValues)
    {
      ConcatStep(slots, b);
      var slot := TitleSlot(genrelist, index, titleIndices[b]);
      if slot.Err? {
        ConcatSticky(slots, b + 1);
        return Err(slot.error);
      }
      pathValues := pathValues + [slot.value];
    }
    assert slots[..|slots|] == slots;
    r := Ok(pathValues);
  }

  /** The titles route once the genre list arrived: the nested loops over the
      indices and the title indices. */
  method GenreTitles(genrelist: Value, indices: seq<int>, titleIndices: seq<int>) returns (r: Result<seq<PathValue>>)
    ensures r == Concat(TitleBlocks(genrelist, indices, titleIndices))
  {
    ghost var blocks := TitleBlocks(genrelist, indices, titleIndices);
    var pathValues: seq<PathValue> := [];
    for a := 0 to |indices|
      invariant Concat(blocks[..a]) == Ok(pathValues)
    {
      ConcatStep(blocks, a);
      var slots := GenreSlots(genrelist, indices[a], titleIndices);
      if slots.Err? {
        ConcatSticky(blocks, a + 1);
        return Err(slots.error);
      }
      pathValues := pathValues + slots.value;
    }
    assert blocks[..|indices|] == blocks;
    r := Ok(pathValues);
  }


  /** One index's answer of the titles route: it answers exactly when every
      slot read does, and then holds one PathValue per title index, in order. */
  lemma SlotsOutcome(genrelist: Value, index: int, titleIndices: seq<int>)
    ensures Concat(SlotBlocks(genrelist, index, titleIndices)).Ok? <==>
              forall b :: 0 <= b < |titleIndices| ==> TitleSlot(genrelist, index, titleIndices[b]).Ok?
    ensures Concat(SlotBlocks(genrelist, index, titleIndices)).Ok? ==>
              && |Concat(SlotBlocks(genrelist, index, titleIndices)).value| == |titleIndices|
              && forall b :: 0 <= b < |titleIndices| ==>
                   Concat(SlotBlocks(genrelist, index, titleIndices)).value[b] == TitleSlot(genrelist, index, titleIndices[b]).value
  {
    var slots := SlotBlocks(genrelist, index, titleIndices);
    ConcatOk(slots);
    if Concat(slots).Ok? {
      ConcatUniformLength(slots, 1);
      forall b | 0 <= b < |titleIndices|
        ensures Concat(slots).value[b] == TitleSlot(genrelist, index, titleIndices[b]).value
      {
        ConcatUniformAt(slots, 1, b, 0);
      }
    }
  }

  /** The titles route throws exactly when some slot read throws, which
      needs at least one title index. */
  lemma GenreTitlesThrows(genrelist: Value, indices: seq<int>, titleIndices: seq<int>)
    ensures Concat(TitleBlocks(genrelist, indices, titleIndices)).Ok? <==>
              forall a, b :: 0 <= a < |indices| && 0 <= b < |titleIndices| ==> TitleSlot(genrelist, indices[a], titleIndices[b]).Ok?
    ensures Concat(TitleBlocks(genrelist, indices, titleIndices)).Err? ==> |titleIndices| > 0
  {
    var blocks := TitleBlocks(genrelist, indices, titleIndices);
    ConcatOk(blocks);
    forall a | 0 <= a < |indices|
      ensures blocks[a].Ok? <==> forall b :: 0 <= b < |titleIndices| ==> TitleSlot(genrelist, indices[a], titleIndices[b]).Ok?
    {
      SlotsOutcome(genrelist, indices[a], titleIndices);
    }
  }

  /** Every index's answer of a titles route that answered holds one
      PathValue per title index. */
  lemma TitleBlocksUniform(genrelist: Value, indices: seq<int>, titleIndices: seq<int>)
    requires Concat(TitleBlocks(genrelist, indices, titleIndices)).Ok?
    ensures forall a :: 0 <= a < |indices| ==>
              && TitleBlocks(genrelist, indices, titleIndices)[a].Ok?
              && |TitleBlocks(genrelist, indices, titleIndices)[a].value| == |titleIndices|
  {
    var blocks := TitleBlocks(genrelist, indices, titleIndices);
    ConcatOk(blocks);
    forall a | 0 <= a < |indices|
      ensures blocks[a].Ok? && |blocks[a].value| == |titleIndices|
    {
      SlotsOutcome(genrelist, indices[a], titleIndices);
    }
  }

  /** When the titles route answers, it holds exactly `|indices| *
      |titleIndices|` PathValues. */
  lemma GenreTitlesLength(genrelist: Value, indices: seq<int>, titleIndices: seq<int>)
    requires Concat(TitleBlocks(genrelist, indices, titleIndices)).Ok?
    ensures |Concat(TitleBlocks(genrelist, indices, titleIndices)).value| == |indices| * |titleIndices|
  {
    TitleBlocksUniform(genrelist, indices, titleIndices);
    ConcatUniformLength(TitleBlocks(genrelist, indices, titleIndices), |titleIndices|);
  }

  /** When the titles route answers, the PathValue for `(indices[a],
      titleIndices[b])` sits at position `a * |titleIndices| + b`. */
  lemma GenreTitlesAt(genrelist: Value, indices: seq<int>, titleIndices: seq<int>, a: nat, b: nat)
    requires Concat(TitleBlocks(genrelist, indices, titleIndices)).Ok?
    requires a < |indices| && b < |titleIndices|
    ensures TitleSlot(genrelist, indices[a], titleIndices[b]).Ok?
    ensures Position(a, |titleIndices|, b) < |Concat(TitleBlocks(genrelist, indices, titleIndices)).value|
    ensures Concat(TitleBlocks(genrelist, indices, titleIndices)).value[Position(a, |titleIndices|, b)] ==
              TitleSlot(genrelist, indices[a], titleIndices[b]).value
  {
    var blocks := TitleBlocks(genrelist, indices, titleIndices);
    TitleBlocksUniform(genrelist, indices, titleIndices);
    ConcatUniformAt(blocks, |titleIndices|, a, b);
    assert blocks[a] == Concat(SlotBlocks(genrelist, indices[a], titleIndices));
    SlotAt(genrelist, indices[a], titleIndices, b);
  }

  /** One slot of one genre index, as `SlotsOutcome` places it. */
  lemma SlotAt(genrelist: Value, index: int, titleIndices: seq<int>, b: nat)
    requires Concat(SlotBlocks(genrelist, index, titleIndices)).Ok? && b < |titleIndices|
    ensures TitleSlot(genrelist, index, titleIndices[b]).Ok?
    ensures b < |Concat(SlotBlocks(genrelist, index, titleIndices)).value|
    ensures Concat(SlotBlocks(genrelist, index, titleIndices)).value[b] == TitleSlot(genrelist, index, titleIndices[b]).value
  {
    SlotsOutcome(genrelist, index, titleIndices);
  }

  // ------------------------------------------------- titlesById[..][fields]

  /** The fields of a title object: for every requested key, the document's
      value under that key. */
  function TitleFields(doc: Fields, keys: seq<string>): map<Key, Graph> {
    if keys == [] then map[]
    else
      var n := |keys| - 1;
      TitleFields(doc, keys[..n])[Name(keys[n]) := Leaf(Val(Field(doc, keys[n])))]
  }

  lemma {:induction false} TitleFieldsHas(doc: Fields, keys: seq<string>, k: Key)
    ensures k in TitleFields(doc, keys) <==> k.Name? && k.name in keys
    ensures k in TitleFields(doc, keys) ==> TitleFields(doc, keys)[k] == Leaf(Val(Field(doc, k.name)))
  {
    if keys != [] {
      var n := |keys| - 1;
      TitleFieldsHas(doc, keys[..n], k);
      assert keys == keys[..n] + [keys[n]];
    }
  }

  /** A title object's keys are the requested keys. */
  lemma TitleFieldsKeys(doc: Fields, keys: seq<string>)
    ensures TitleFields(doc, keys).Keys == set k | k in keys :: Name(k)
  {
    forall k ensures k in TitleFields(doc, keys) <==> k in set k | k in keys :: Name(k) {
      TitleFieldsHas(doc, keys, k);
    }
  }

  /** One title of the envelope as intended: the undefined marker for a
      title the store does not have, an error for any other failure, else
      the object of the requested fields. */
  function TitleEntry(row: Row, keys: seq<string>): Graph {
    match row
    case Fault(_, e) => if e == NotFound then Leaf(UndefinedMarker) else Leaf(Error(Str(e)))
    case Doc(_, _, doc) => Branch(TitleFields(doc, keys))
  }

  /** One title of the envelope as index.js writes it: the `not_found` branch
      calls `undefined()` on the local `jsonGraph` object, which has no such
      method, so it throws. */
  function TitleEntryAsWritten(row: Row, keys: seq<string>): (r: Result<Graph>)
    ensures r.Err? <==> row.Fault? && row.error == NotFound
    ensures r.Err? ==> r.error == TypeError
    ensures r.Ok? && row.Fault? ==> r.value == Leaf(Error(Str(row.error)))
    ensures r.Ok? && row.Doc? ==> r.value.Branch? && r.value.children.Keys == set k | k in keys :: Name(k)
  {
    match row
    case Fault(_, e) => if e == NotFound then Err(TypeError) else Ok(Leaf(Error(Str(e))))
    case Doc(_, _, doc) => TitleFieldsKeys(doc, keys); Ok(Branch(TitleFields(doc, keys)))
  }

  /** A title the store does not have makes the route throw as written, where
      the intended answer is the undefined marker; on every other row the two agree. */
  lemma MissingTitleThrows(row: Row, keys: seq<string>)
    ensures row.Fault? && row.error == NotFound ==>
              TitleEntryAsWritten(row, keys) == Err(TypeError) && TitleEntry(row, keys) == Leaf(UndefinedMarker)
    ensures !(row.Fault? && row.error == NotFound) ==> TitleEntryAsWritten(row, keys) == Ok(TitleEntry(row, keys))
  {
  }

  /** What a reader of the envelope finds at `[titlesById, id, key]`, by the
      row of that title. */
  function ExpectedField(row: Row, key: string): Sentinel {
    match row
    case Fault(_, e) => if e == NotFound then UndefinedMarker else Error(Str(e))
    case Doc(_, _, doc) => Val(Field(doc, key))
  }

  /** The title object of a found document: its requested fields, key by key. */
  method TitleObject(doc: Fields, keys: seq<string>) returns (title: map<Key, Graph>)
    ensures title == TitleFields(doc, keys)
  {
    title := map[];
    for j := 0 to |keys|
      invariant title == TitleFields(doc, keys[..j])
    {
      assert keys[..j + 1][..j] == keys[..j];
      title := title[Name(keys[j]) := Leaf(Val(Field(doc, keys[j])))];
    }
    assert keys[..|keys|] == keys;
  }

  /** The titlesById route once the titles arrived: it builds the envelope
      title by title. A requested title with no entry in `titles` makes it
      throw. */
  method TitlesByIdEnvelope(titleIds: seq<int>, keys: seq<string>, titles: map<string, Row>) returns (r: Result<Graph>)
    ensures r.Err? <==> exists i :: 0 <= i < |titleIds| && Decimal(titleIds[i]) !in titles
    ensures r.Err? ==> r.error == TypeError
    ensures r.Ok? ==> r.value.Branch? && r.value.children.Keys == {TitlesById}
    ensures r.Ok? ==> r.value.children[TitlesById].Branch?
    ensures r.Ok? ==> forall k :: k in r.value.children[TitlesById].children <==> k.Index? && k.index in titleIds
    ensures r.Ok? ==> forall i :: 0 <= i < |titleIds| ==>
              r.value.children[TitlesById].children[Index(titleIds[i])] == TitleEntry(titles[Decimal(titleIds[i])], keys)
  {
    var byId: map<Key, Graph> := map[];
    for i := 0 to |titleIds|
      invariant forall j :: 0 <= j < i ==> Decimal(titleIds[j]) in titles
      invariant forall k :: k in byId <==> k.Index? && k.index in titleIds[..i]
      invariant forall j :: 0 <= j < i ==> byId[Index(titleIds[j])] == TitleEntry(titles[Decimal(titleIds[j])], keys)
    {
      assert titleIds[..i + 1] == titleIds[..i] + [titleIds[i]];
      var titleId := titleIds[i];
      if Decimal(titleId) !in titles {
        return Err(TypeError);
      }
      var responseTitle := titles[Decimal(titleId)];
      var entry: Graph;
      if responseTitle.Fault? && responseTitle.error == NotFound {
        entry := Leaf(UndefinedMarker);
      } else if responseTitle.Fault? {
        entry := Leaf(Error(Str(responseTitle.error)));
      } else {
        var title := TitleObject(responseTitle.doc, keys);
        entry := Branch(title);
      }
      assert entry == TitleEntry(responseTitle, keys);
      byId := byId[Index(titleId) := entry];
      assert forall j :: 0 <= j < i + 1 ==> Decimal(titleIds[j]) in titles by {
        assert forall j :: 0 <= j < i ==> Decimal(titleIds[j]) in titles;
        assert Decimal(titleIds[i]) in titles;
      }
    }
    assert titleIds[..|titleIds|] == titleIds;
    r := Ok(Branch(map[TitlesById := Branch(byId)]));
  }

  /** Every requested field of every requested title is answered by the
      envelope: the field's value, or the marker or error of its title. */
  lemma TitleEntryResolves(row: Row, keys: seq<string>, j: nat)
    requires j < |keys|
    ensures Resolve(TitleEntry(row, keys), [Name(keys[j])]) == Some(ExpectedField(row, keys[j]))
  {
    if row.Doc? {
      TitleFieldsHas(row.doc, keys, Name(keys[j]));
    }
  }

  // ------------------------------------------------- genrelist[..].titles.length

  /** The PathValue of the length route for one index: an atom of a null or
      undefined genre, else the `length` of its titles list. */
  function LengthPathValue(genrelist: Value, index: int): (r: Result<PathValue>)
    ensures r.Ok? ==> r.value.path == [GenreList, Index(index), Titles, Length]
    // a null or undefined genre is an atom of itself ...
    ensures r.Err? <==> Nullish(genrelist) ||
                        (!Nullish(Get(genrelist, Index(index)).value) && ReadPath(genrelist, [Index(index), Titles, Length]).Err?)
    ensures r.Ok? && Nullish(Get(genrelist, Index(index)).value) ==> r.value.value == Atom(Get(genrelist, Index(index)).value)
    // ... otherwise the value is what reading `genrelist[index].titles.length` gives
    ensures r.Ok? && !Nullish(Get(genrelist, Index(index)).value) ==>
              r.value.value == Val(ReadPath(genrelist, [Index(index), Titles, Length]).value)
  {
    var path := [GenreList, Index(index), Titles, Length];
    ReadPath3(genrelist, Index(index), Titles, Length);
    match Get(genrelist, Index(index))
    case Err(e) => Err(e)
    case Ok(list) =>
      ReadPath2(list, Titles, Length);
      if Nullish(list) then Ok(PathValue(path, Atom(list)))
      else
        match Get(list, Titles)
        case Err(e) => Err(e)
        case Ok(titles) =>
          match Get(titles, Length)
          case Err(e) => Err(e)
          case Ok(len) => Ok(PathValue(path, Val(len)))
  }

  /** The length route once the genre list arrived: one PathValue per index,
      always at `[genrelist, index, titles, length]`. */
  function TitlesLength(genrelist: Value, indices: seq<int>): (r: Result<seq<PathValue>>)
    ensures r.Ok? <==> forall a :: 0 <= a < |indices| ==> LengthPathValue(genrelist, indices[a]).Ok?
    ensures r.Ok? ==> |r.value| == |indices|
    ensures r.Ok? ==> forall a :: 0 <= a < |indices| ==> r.value[a].path == [GenreList, Index(indices[a]), Titles, Length]
    ensures r.Ok? ==> forall a :: 0 <= a < |indices| ==>
              && (Nullish(Get(genrelist, Index(indices[a])).value) ==> r.value[a].value == Atom(Get(genrelist, Index(indices[a])).value))
              && (TitlesOf(genrelist, Index(indices[a])).Some? ==>
                    r.value[a].value == Val(Num(|TitlesOf(genrelist, Index(indices[a])).value|)))
  {
    if forall a :: 0 <= a < |indices| ==> LengthPathValue(genrelist, indices[a]).Ok? then
      Ok(seq(|indices|, a requires 0 <= a < |indices| => LengthPathValue(genrelist, indices[a]).value))
    else Err(TypeError)
  }

  /** Read from the list the push wrote, the length is the one the push
      reported. (The length route itself answers from the remembered list,
      which the push does not refresh: see `PushThenLengthIsStale`.) */
  lemma LengthAfterPush(recs: Value, index: int, title: Value)
    requires AppendTitle(recs, Index(index), title).Ok?
    ensures var (recs', len) := AppendTitle(recs, Index(index), title).value;
            TitlesLength(recs', [index]) == Ok([PushPathValues(Index(index), title, len)[1]])
  {
    var (recs', len) := AppendTitle(recs, Index(index), title).value;
    var ts := TitlesOf(recs', Index(index)).value;
    var genre := Get(recs', Index(index)).value;
    assert !Nullish(genre);
    assert Get(genre, Titles) == Ok(Array(ts));
    assert |ts| == len;
    var pv := PathValue([GenreList, Index(index), Titles, Length], Val(Num(len)));
    assert LengthPathValue(recs', index) == Ok(pv);
    assert pv == PushPathValues(Index(index), title, len)[1];
    assert TitlesLength(recs', [index]).value == [pv];
  }

  // ------------------------------------------------- the routes that read the genre list

  /** The name route: read the genre list, then answer. */
  method GenreNamesRoute(service: GenreListService, user: UserId, indices: seq<int>, keys: seq<string>)
    returns (r: Result<seq<PathValue>>)
    modifies service
    ensures service.memo == Remembered(old(service.memo), service.db.docs, user)
    ensures r == match ListRead(old(service.memo), service.db.docs, user)
                 case Err(e) => Err(e)
                 case Ok(genrelist) => Concat(NamesBlocks(genrelist, indices, keys))
  {
    var genrelist := service.GetGenreList(user);
    if genrelist.Err? {
      return Err(genrelist.error);
    }
    r := GenreNames(genrelist.value, indices, keys);
  }

  /** The titles route: read the genre list, then answer. */
  method GenreTitlesRoute(service: GenreListService, user: UserId, indices: seq<int>, titleIndices: seq<int>)
    returns (r: Result<seq<PathValue>>)
    modifies service
    ensures service.memo == Remembered(old(service.memo), service.db.docs, user)
    ensures r == match ListRead(old(service.memo), service.db.docs, user)
                 case Err(e) => Err(e)
                 case Ok(genrelist) => Concat(TitleBlocks(genrelist, indices, titleIndices))
  {
    var genrelist := service.GetGenreList(user);
    if genrelist.Err? {
      return Err(genrelist.error);
    }
    r := GenreTitles(genrelist.value, indices, titleIndices);
  }

  /** `this.userId || 'all'`: the user the length route reads the list for. */
  function OrAll(user: UserId): UserId {
    if user.User? && user.id != "" then user else User("all")
  }

  /** The length route: read the genre list (for `userId || 'all'`, which
      names the same document as `userId`), then answer. */
  method TitlesLengthRoute(service: GenreListService, user: UserId, indices: seq<int>)
    returns (r: Result<seq<PathValue>>)
    modifies service
    ensures GenreListKey(OrAll(user)) == GenreListKey(user)
    ensures service.memo == Remembered(old(service.memo), service.db.docs, OrAll(user))
    ensures r == match ListRead(old(service.memo), service.db.docs, OrAll(user))
                 case Err(e) => Err(e)
                 case Ok(genrelist) => TitlesLength(genrelist, indices)
  {
    var genrelist := service.GetGenreList(OrAll(user));
    if genrelist.Err? {
      return Err(genrelist.error);
    }
    r := TitlesLength(genrelist.value, indices);
  }

  // ------------------------------------------------- genrelist[..].titles.push

  /** `callPath.indices[0]`: the genre a push goes to (`undefined` when no
      index was given, which no genre list answers). */
  function PushGenre(indices: seq<int>): Key {
    if indices == [] then Name("undefined") else Index(indices[0])
  }

  /** `args[0]`: the pushed title. */
  function PushArg(args: seq<Value>): Value {
    if args == [] then Undefined else args[0]
  }

  /** The push route: refuse a null or undefined user before anything else,
      then push onto the user's own document. */
  method TitlesPush(service: GenreListService, user: UserId, indices: seq<int>, args: seq<Value>)
    returns (r: Result<seq<PathValue>>)
    modifies service.db
    ensures LooselyUndefined(user) ==> r == Err(NotAuthorized) && service.db.docs == old(service.db.docs)
    ensures !LooselyUndefined(user) && user.id in old(service.db.docs) &&
            AppendTitle(old(service.db.docs[user.id]).recommendations, PushGenre(indices), PushArg(args)).Ok? ==>
              var doc := old(service.db.docs[user.id]);
              var (recs', len) := AppendTitle(doc.recommendations, PushGenre(indices), PushArg(args)).value;
              && service.db.docs == old(service.db.docs)[user.id := RecDoc(doc.rev + 1, recs')]
              && r == Ok(PushPathValues(PushGenre(indices), PushArg(args), len))
    ensures !LooselyUndefined(user) && !(user.id in old(service.db.docs) &&
            AppendTitle(old(service.db.docs[user.id]).recommendations, PushGenre(indices), PushArg(args)).Ok?) ==>
              r.Err? && service.db.docs == old(service.db.docs)
  {
    if LooselyUndefined(user) {
      return Err(NotAuthorized);
    }
    r := service.AddTitleToGenreList(user.id, PushGenre(indices), PushArg(args));
  }

  /** The length route after a push answers from the remembered list: a user
      whose list was read once, with an empty `titles` in genre 0, pushes a
      title, the push reports length 1, and the length route still says 0. */
  method PushThenLengthIsStale() returns (before: Result<seq<PathValue>>, pushed: Result<seq<PathValue>>, after: Result<seq<PathValue>>)
    ensures before == Ok([PathValue([GenreList, Index(0), Titles, Length], Val(Num(0)))])
    ensures pushed.Ok? && |pushed.value| == 2 && pushed.value[1] == PathValue([GenreList, Index(0), Titles, Length], Val(Num(1)))
    ensures after == before
  {
    var list := Array([Object(map["name" := Str("Thrillers"), "titles" := Array([])])]);
    var db := new RecommendationsDb(map["1" := RecDoc(1, list)]);
    var service := new GenreListService(db);
    assert Get(list, Index(0)).value.fields["titles"] == Array([]);
    assert TitlesOf(list, Index(0)) == Some([]);
    var zero := PathValue([GenreList, Index(0), Titles, Length], Val(Num(0)));
    assert LengthPathValue(list, 0) == Ok(zero);
    var answer := TitlesLength(list, [0]);
    assert answer.Ok? && |answer.value| == 1 && answer.value[0] == zero;
    assert answer.value == [zero];
    before := TitlesLengthRoute(service, User("1"), [0]);
    assert service.memo == list;
    pushed := TitlesPush(service, User("1"), [0], [Num(523)]);
    assert AppendTitle(list, Index(0), Num(523)).value.1 == 1;
    after := TitlesLengthRoute(service, User("1"), [0]);
  }
}
