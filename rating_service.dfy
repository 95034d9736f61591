/**
 * rating-service.js: the rating clamp, the composite `userId,titleId`
 * document keys, and the assembly of the `getRatings` and `setRatings`
 * answers from the ratings store's rows.
 *
 * The store is not modelled as state: its `allDocs` rows and `bulkDocs`
 * results are parameters, and what the store promises about them (one row
 * per requested key, in request order, carrying that key) is a `requires`.
 */
module RatingService {
  import opened Js
  import opened Rows

  /** `coerce`: ratings above 5 become 5, ratings below 1 become 1. */
  function Coerce(rating: int): (r: int)
    ensures 1 <= r <= 5
    ensures 1 <= rating <= 5 ==> r == rating
    ensures rating > 5 ==> r == 5
    ensures rating < 1 ==> r == 1
  {
    if rating > 5 then 5 else if rating < 1 then 1 else rating
  }

  /** Clamping a clamped rating changes nothing. */
  lemma CoerceIdempotent(rating: int)
    ensures Coerce(Coerce(rating)) == Coerce(rating)
  {
  }

  /** A higher rating never clamps to a lower one. */
  lemma CoerceMonotone(a: int, b: int)
    requires a <= b
    ensures Coerce(a) <= Coerce(b)
  {
  }

  /** The length of the prefix `userId + ","` that every key of the user starts with. */
  function PrefixLength(user: UserId): nat {
    |UserText(user)| + 1
  }

  /** The document key `userId + "," + id`. */
  function EncodeKey(user: UserId, id: string): (key: string)
    ensures |key| == PrefixLength(user) + |id|
    ensures key[..PrefixLength(user)] == UserText(user) + ","
    ensures key[PrefixLength(user)..] == id
  {
    UserText(user) + "," + id
  }

  /** `key.substr((userId + ",").length)`: the title id part of a key;
      empty when the key is no longer than the prefix. */
  function DecodeKey(user: UserId, key: string): (id: string)
  {
    var n := PrefixLength(user);
    if n <= |key| then key[n..] else ""
  }

  /** Decoding drops the user's prefix from a key that is long enough to
      carry it, and gives the empty string for a shorter one. */
  lemma DecodeKeyParts(user: UserId, key: string)
    ensures PrefixLength(user) <= |key| ==> key == key[..PrefixLength(user)] + DecodeKey(user, key)
    ensures |DecodeKey(user, key)| == if PrefixLength(user) <= |key| then |key| - PrefixLength(user) else 0
  {
    var n := PrefixLength(user);
    if n <= |key| {
      assert key == key[..n] + key[n..];
    }
  }

  /** Decoding an encoded key gives back the title id. */
  lemma DecodeEncode(user: UserId, id: string)
    ensures DecodeKey(user, EncodeKey(user, id)) == id
  {
  }

  /** A key that carries the user's prefix is the encoding of the title id
      decoded from it. */
  lemma EncodeDecode(user: UserId, key: string)
    requires PrefixLength(user) <= |key| && key[..PrefixLength(user)] == UserText(user) + ","
    ensures EncodeKey(user, DecodeKey(user, key)) == key
  {
  }

  // ---------------------------------------------------------------- getRatings

  /** The store answered one row per requested title, in request order,
      each row carrying the key that was asked for. */
  predicate Echoes(user: UserId, ids: seq<string>, rows: seq<Row>) {
    |rows| == |ids| && forall i :: 0 <= i < |rows| ==> rows[i].key == EncodeKey(user, ids[i])
  }

  /** The object `getRatings` resolves to: every row filed under the title id
      decoded from its key, a later row replacing an earlier one. */
  function RatingsIndex(user: UserId, rows: seq<Row>): map<string, Row> {
    if rows == [] then map[]
    else
      var last := rows[|rows| - 1];
      RatingsIndex(user, rows[..|rows| - 1])[DecodeKey(user, last.key) := last]
  }

  /** The titles of the index are exactly the titles decoded from the rows. */
  lemma {:induction false} RatingsIndexKeys(user: UserId, rows: seq<Row>, id: string)
    ensures id in RatingsIndex(user, rows) <==> exists i :: 0 <= i < |rows| && DecodeKey(user, rows[i].key) == id
  {
    if rows != [] {
      var n := |rows| - 1;
      var init := rows[..n];
      var last := DecodeKey(user, rows[n].key);
      assert RatingsIndex(user, rows) == RatingsIndex(user, init)[last := rows[n]];
      RatingsIndexKeys(user, init, id);
      if id in RatingsIndex(user, rows) {
        if last != id {
          var i :| 0 <= i < |init| && DecodeKey(user, init[i].key) == id;
          assert rows[i] == init[i];
        }
      }
      if exists i :: 0 <= i < |rows| && DecodeKey(user, rows[i].key) == id {
        var i :| 0 <= i < |rows| && DecodeKey(user, rows[i].key) == id;
        if i < n {
          assert init[i] == rows[i];
        }
      }
    }
  }

  /** A row that no later row shares a title id with is the one filed under
      its title id: the last row for a title wins. */
  lemma {:induction false} RatingsIndexLast(user: UserId, rows: seq<Row>, i: nat)
    requires i < |rows|
    requires forall j :: i < j < |rows| ==> DecodeKey(user, rows[j].key) != DecodeKey(user, rows[i].key)
    ensures DecodeKey(user, rows[i].key) in RatingsIndex(user, rows)
    ensures RatingsIndex(user, rows)[DecodeKey(user, rows[i].key)] == rows[i]
  {
    var n := |rows| - 1;
    var init := rows[..n];
    assert RatingsIndex(user, rows) == RatingsIndex(user, init)[DecodeKey(user, rows[n].key) := rows[n]];
    if i < n {
      assert init[i] == rows[i];
      forall j | i < j < |init| ensures DecodeKey(user, init[j].key) != DecodeKey(user, init[i].key) {
        assert init[j] == rows[j];
      }
      RatingsIndexLast(user, init, i);
    }
  }

  /** Asked for the ratings of `titleIds`, `getRatings` files each requested
      title's row under the title's decimal text, so the route's lookup
      `ratings[titleId]` finds it. */
  lemma RatingsByTitle(user: UserId, titleIds: seq<int>, rows: seq<Row>)
    requires Echoes(user, seq(|titleIds|, i requires 0 <= i < |titleIds| => Decimal(titleIds[i])), rows)
    ensures forall i :: 0 <= i < |titleIds| ==> Decimal(titleIds[i]) in RatingsIndex(user, rows)
    ensures forall i :: 0 <= i < |titleIds| && (forall j :: i < j < |titleIds| ==> titleIds[j] != titleIds[i])
              ==> RatingsIndex(user, rows)[Decimal(titleIds[i])] == rows[i]
  {
    forall i | 0 <= i < |titleIds|
      ensures DecodeKey(user, rows[i].key) == Decimal(titleIds[i])
    {
      DecodeEncode(user, Decimal(titleIds[i]));
    }
    forall i | 0 <= i < |titleIds| ensures Decimal(titleIds[i]) in RatingsIndex(user, rows) {
      RatingsIndexKeys(user, rows, Decimal(titleIds[i]));
    }
    forall i | 0 <= i < |titleIds| && (forall j :: i < j < |titleIds| ==> titleIds[j] != titleIds[i])
      ensures RatingsIndex(user, rows)[Decimal(titleIds[i])] == rows[i]
    {
      forall j | i < j < |rows| ensures DecodeKey(user, rows[j].key) != DecodeKey(user, rows[i].key) {
        if Decimal(titleIds[j]) == Decimal(titleIds[i]) {
          DecimalInjective(titleIds[j], titleIds[i]);
        }
      }
      RatingsIndexLast(user, rows, i);
    }
  }

  /** `getRatings` once the store has answered: the forEach over the rows. */
  method GetRatings(user: UserId, rows: seq<Row>) returns (ratings: map<string, Row>)
    ensures ratings == RatingsIndex(user, rows)
  {
    ratings := map[];
    for i := 0 to |rows|
      invariant ratings == RatingsIndex(user, rows[..i])
    {
      assert rows[..i + 1][..i] == rows[..i];
      ratings := ratings[DecodeKey(user, rows[i].key) := rows[i]];
    }
    assert rows[..|rows|] == rows;
  }

  // ---------------------------------------------------------------- setRatings

  /** A document `setRatings` hands to `bulkDocs`. */
  datatype WriteDoc = WriteDoc(id: string, rev: Option<string>, rating: int)

  /** The documents written for `ids` (the keys of the request, in order):
      one per title, under its composite key, with the clamped rating and
      the revision read for it when the read found the document. */
  function WriteDocs(user: UserId, ids: seq<string>, ratings: map<string, int>, rows: seq<Row>): (docs: seq<WriteDoc>)
    requires Elems(ids) <= ratings.Keys && |rows| == |ids|
    ensures |docs| == |ids|
    ensures forall i :: 0 <= i < |ids| ==>
              && docs[i].id == EncodeKey(user, ids[i])
              // the key written for a title decodes back to that title
              && DecodeKey(user, docs[i].id) == ids[i]
              && docs[i].rating == Coerce(ratings[ids[i]])
              && 1 <= docs[i].rating <= 5
              && (docs[i].rev.Some? <==> rows[i].Doc?)
              && (rows[i].Doc? ==> docs[i].rev == Some(rows[i].rev))
  {
    seq(|ids|, i requires 0 <= i < |ids| =>
      WriteDoc(EncodeKey(user, ids[i]), if rows[i].Doc? then Some(rows[i].rev) else None, Coerce(ratings[ids[i]])))
  }

  /** The row `setRatings` makes up for a document it created. */
  function Synthesized(id: string, rev: string, rating: int): Row {
    Doc(id, rev, map["rating" := Num(rating), "_id" := Str(id), "_rev" := Str(rev)])
  }

  /** One title's entry of the `setRatings` answer as rating-service.js
      writes it: a document that already existed is reported by the row read
      BEFORE the write, so with the rating it had before. */
  function ReportedAsWritten(read: Row, write: WriteResult, rating: int): (e: Entry)
    ensures write.Written? <==> !EntryError(e)
    // an existing document is reported by the row read before the write ...
    ensures write.Written? && read.Doc? ==> e == Read(read)
    // ... a new one by a document made up from the write's revision and the rating
    ensures write.Written? && read.Fault? ==>
              e == Read(Doc(write.id, write.rev, e.row.doc)) && Field(e.row.doc, "rating") == Num(rating)
    ensures write.Refused? ==> e == Failed(write.id, write.message)
  {
    if write.Written? then
      (if read.Fault? then Read(Synthesized(write.id, write.rev, rating)) else Read(read))
    else Failed(write.id, write.message)
  }

  /** One title's entry as intended: every successful write reports the
      document as written, with its new revision and the new rating. */
  function Reported(read: Row, write: WriteResult, rating: int): (e: Entry)
    ensures write.Written? <==> !EntryError(e)
    ensures write.Written? ==> e == Read(Doc(write.id, write.rev, e.row.doc)) && Field(e.row.doc, "rating") == Num(rating)
    ensures write.Refused? ==> e == Failed(write.id, write.message)
  {
    if write.Written? then Read(Synthesized(write.id, write.rev, rating))
    else Failed(write.id, write.message)
  }

  /** Overwriting an existing rating reports the old rating: the store holds
      rating 2 under revision `1-a`, a rating of 4 is written successfully,
      and the answer as written still says 2 where the intended one says 4. */
  lemma StaleRatingReported()
    ensures var read := Doc("1,7", "1-a", map["rating" := Num(2)]);
            var write := Written("1,7", "2-b");
            && Field(ReportedAsWritten(read, write, 4).row.doc, "rating") == Num(2)
            && Field(Reported(read, write, 4).row.doc, "rating") == Num(4)
  {
    var read := Doc("1,7", "1-a", map["rating" := Num(2)]);
    assert Field(read.doc, "rating") == Num(2);
  }

  /** The two ways of reporting one title: as rating-service.js writes it,
      and as intended. */
  datatype Reporting = AsWritten | Intended

  /** One title's entry under the chosen way of reporting. */
  function EntryFor(reporting: Reporting, read: Row, write: WriteResult, rating: int): Entry {
    match reporting
    case AsWritten => ReportedAsWritten(read, write, rating)
    case Intended => Reported(read, write, rating)
  }

  /** The two ways agree on every title except one whose document existed
      and was overwritten. */
  lemma ReportingDiffersOnlyOnOverwrite(read: Row, write: WriteResult, rating: int)
    ensures !(write.Written? && read.Doc?) ==> EntryFor(AsWritten, read, write, rating) == EntryFor(Intended, read, write, rating)
    ensures write.Written? && read.Doc? ==>
              Field(EntryFor(AsWritten, read, write, rating).row.doc, "rating") == Field(read.doc, "rating")
  {
  }

  /** The answer of `setRatings`: for each read row, in order, the entry for
      the title decoded from its key. */
  function SetResults(reporting: Reporting, user: UserId, ratings: map<string, int>, rows: seq<Row>, writes: seq<WriteResult>): map<string, Entry>
    requires |writes| == |rows|
    requires forall i :: 0 <= i < |rows| ==> DecodeKey(user, rows[i].key) in ratings
  {
    if rows == [] then map[]
    else
      var n := |rows| - 1;
      var id := DecodeKey(user, rows[n].key);
      SetResults(reporting, user, ratings, rows[..n], writes[..n])[id := EntryFor(reporting, rows[n], writes[n], Coerce(ratings[id]))]
  }

  /** Under the store's echo, each read row decodes to its own title id. */
  lemma EchoDecodes(user: UserId, ids: seq<string>, rows: seq<Row>)
    requires Echoes(user, ids, rows)
    ensures forall i :: 0 <= i < |rows| ==> DecodeKey(user, rows[i].key) == ids[i]
  {
    forall i | 0 <= i < |rows| ensures DecodeKey(user, rows[i].key) == ids[i] {
      DecodeEncode(user, ids[i]);
    }
  }

  /** The answer is filed under the same titles as the ratings index of the read rows. */
  lemma {:induction false} SetResultsIndexKeys(reporting: Reporting, user: UserId, ratings: map<string, int>, rows: seq<Row>, writes: seq<WriteResult>)
    requires |writes| == |rows|
    requires forall i :: 0 <= i < |rows| ==> DecodeKey(user, rows[i].key) in ratings
    ensures SetResults(reporting, user, ratings, rows, writes).Keys == RatingsIndex(user, rows).Keys
  {
    if rows != [] {
      var n := |rows| - 1;
      assert forall j :: 0 <= j < n ==> rows[..n][j] == rows[j];
      SetResultsIndexKeys(reporting, user, ratings, rows[..n], writes[..n]);
    }
  }

  /** The titles of the answer are exactly the titles decoded from the read rows. */
  lemma SetResultsKeys(reporting: Reporting, user: UserId, ratings: map<string, int>, rows: seq<Row>, writes: seq<WriteResult>, id: string)
    requires |writes| == |rows|
    requires forall i :: 0 <= i < |rows| ==> DecodeKey(user, rows[i].key) in ratings
    ensures id in SetResults(reporting, user, ratings, rows, writes) <==> exists i :: 0 <= i < |rows| && DecodeKey(user, rows[i].key) == id
  {
    SetResultsIndexKeys(reporting, user, ratings, rows, writes);
    RatingsIndexKeys(user, rows, id);
  }

  /** A title's entry comes from the last read row for that title. */
  lemma {:induction false} SetResultsLast(reporting: Reporting, user: UserId, ratings: map<string, int>, rows: seq<Row>, writes: seq<WriteResult>, i: nat)
    requires |writes| == |rows|
    requires forall i :: 0 <= i < |rows| ==> DecodeKey(user, rows[i].key) in ratings
    requires i < |rows|
    requires forall j :: i < j < |rows| ==> DecodeKey(user, rows[j].key) != DecodeKey(user, rows[i].key)
    ensures DecodeKey(user, rows[i].key) in SetResults(reporting, user, ratings, rows, writes)
    ensures SetResults(reporting, user, ratings, rows, writes)[DecodeKey(user, rows[i].key)]
              == EntryFor(reporting, rows[i], writes[i], Coerce(ratings[DecodeKey(user, rows[i].key)]))
  {
    var n := |rows| - 1;
    if i < n {
      var init, winit := rows[..n], writes[..n];
      assert forall j :: 0 <= j < n ==> init[j] == rows[j];
      assert winit[i] == writes[i];
      SetResultsLast(reporting, user, ratings, init, winit, i);
    }
  }

  /** Each requested title gets exactly one entry, built from its own read
      row and write result, with its own clamped rating. */
  lemma SetResultsPerTitle(reporting: Reporting, user: UserId, ids: seq<string>, ratings: map<string, int>, rows: seq<Row>, writes: seq<WriteResult>)
    requires Echoes(user, ids, rows) && |writes| == |ids| && Elems(ids) <= ratings.Keys
    requires forall i, j :: 0 <= i < j < |ids| ==> ids[i] != ids[j]
    ensures forall i :: 0 <= i < |rows| ==> DecodeKey(user, rows[i].key) == ids[i]
    ensures SetResults(reporting, user, ratings, rows, writes).Keys == Elems(ids)
    ensures forall i :: 0 <= i < |ids| ==>
              SetResults(reporting, user, ratings, rows, writes)[ids[i]] == EntryFor(reporting, rows[i], writes[i], Coerce(ratings[ids[i]]))
  {
    EchoDecodes(user, ids, rows);
    forall id ensures id in SetResults(reporting, user, ratings, rows, writes) <==> id in Elems(ids) {
      SetResultsKeys(reporting, user, ratings, rows, writes, id);
    }
    forall i | 0 <= i < |ids|
      ensures SetResults(reporting, user, ratings, rows, writes)[ids[i]] == EntryFor(reporting, rows[i], writes[i], Coerce(ratings[ids[i]]))
    {
      SetResultsLast(reporting, user, ratings, rows, writes, i);
    }
  }

  /** The `setRatings` assembly once the store has answered both requests:
      the forEach over the read rows. */
  method AssembleSetResults(reporting: Reporting, user: UserId, ratings: map<string, int>, rows: seq<Row>, writes: seq<WriteResult>)
    returns (results: map<string, Entry>)
    requires |writes| == |rows|
    requires forall i :: 0 <= i < |rows| ==> DecodeKey(user, rows[i].key) in ratings
    ensures results == SetResults(reporting, user, ratings, rows, writes)
  {
    results := map[];
    for i := 0 to |rows|
      invariant results == SetResults(reporting, user, ratings, rows[..i], writes[..i])
    {
      assert rows[..i + 1][..i] == rows[..i] && writes[..i + 1][..i] == writes[..i];
      var id := DecodeKey(user, rows[i].key);
      results := results[id := EntryFor(reporting, rows[i], writes[i], Coerce(ratings[id]))];
    }
    assert rows[..|rows|] == rows && writes[..|writes|] == writes;
  }
}
