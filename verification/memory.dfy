/** The interaction memory of database.py: the `conversations` table, saving
    an exchange with its three embeddings, recent and similarity-ranked context
    retrieval, and the embedding backfill for legacy rows.

    The sentence encoder, JSON (de)serialisation of vectors and sklearn's
    cosine similarity are foreign code; they are the uninterpreted fields of
    `Oracles` and every operation takes them as a parameter. */
module Memory {
  import opened Wrappers
  import opened Text
  import Ranking

  /** An embedding as numpy hands it over: a list of floats. */
  type Vec = seq<real>

  /** What becomes of a stored `combined_embedding` inside the `try` block of
      `get_similar_context`: `json.loads`, `np.array(...).reshape(1, -1)` and
      the float conversion `cosine_similarity` applies. */
  datatype Decoded =
    /** a vector of floats */
    | Floats(v: Vec)
    /** `json.JSONDecodeError` or `ValueError`: the handler skips the row */
    | Caught
    /** valid JSON that is not numeric (`null`, an object, a list holding
        `null`): the float conversion raises `TypeError`, which the handler
        does not catch */
    | Uncaught

  datatype Oracles = Oracles(
    /** `embedding_model.encode(text).tolist()` */
    encode: string -> Vec,
    /** `json.dumps(vector)` */
    dumps: Vec -> string,
    /** `np.array(json.loads(text)).reshape(1, -1)` as a float array */
    loads: string -> Decoded,
    /** `cosine_similarity(query, stored)[0][0]` on equal, non-zero widths */
    cosine: (Vec, Vec) -> real)

  /** One row of the `conversations` table. The two texts and the three
      embeddings are nullable TEXT, the embeddings holding JSON; `user_id` and
      `timestamp` are supplied by every insert and are not null. */
  datatype Row = Row(
    id: nat,
    userId: string,
    timestamp: string,
    userInput: Option<string>,
    botResponse: Option<string>,
    userEmbedding: Option<string>,
    botEmbedding: Option<string>,
    combinedEmbedding: Option<string>)

  /** The table. `embeddingColumns` is false for a table created before the
      three embedding columns existed; they are only ever added together. */
  datatype Db = Db(embeddingColumns: bool, rows: seq<Row>)

  /** A table without the embedding columns holds no embeddings. */
  predicate WellFormed(db: Db)
  {
    !db.embeddingColumns ==> forall x :: x in db.rows ==>
      x.userEmbedding.None? && x.botEmbedding.None? && x.combinedEmbedding.None?
  }

  /** Why a memory operation raises: `NoSuchColumn` is the
      `sqlite3.OperationalError` of a statement naming an embedding column the
      table lacks, `NotNumeric` the `TypeError` of a stored embedding that
      does not convert to floats. */
  datatype DbError = NoSuchColumn | NotNumeric

  /** The table `init_db` creates in a fresh database file. */
  const Empty: Db := Db(true, [])

  /** The text whose embedding is stored as `combined_embedding`. */
  function CombinedText(u: string, b: string): string
  {
    "User: " + u + " Bot: " + b
  }

  /** The stored JSON of the embedding of `text`. */
  function EmbeddingOf(o: Oracles, text: string): string
  {
    o.dumps(o.encode(text))
  }

  /** Python's f-string rendering of a nullable TEXT value. */
  function Show(t: Option<string>): string
  {
    match t
    case None => "None"
    case Some(s) => s
  }

  /** The context line built from a row by both retrieval paths. */
  function Format(r: Row): string
  {
    "User: " + Show(r.userInput) + " | Bot: " + Show(r.botResponse)
  }

  function Contexts(rows: seq<Row>): (r: seq<string>)
    ensures |r| == |rows|
    ensures forall i :: 0 <= i < |rows| ==> r[i] == Format(rows[i])
  {
    seq(|rows|, i requires 0 <= i < |rows| => Format(rows[i]))
  }

  predicate IdsIncreasing(rows: seq<Row>)
  {
    forall i, j :: 0 <= i < j < |rows| ==> rows[i].id < rows[j].id
  }

  function MaxId(rows: seq<Row>): (m: nat)
    ensures forall r :: r in rows ==> r.id <= m
  {
    if rows == [] then 0
    else
      var m := MaxId(rows[1..]);
      assert forall r :: r in rows ==> r == rows[0] || r in rows[1..];
      if rows[0].id > m then rows[0].id else m
  }

  // ---------------------------------------------------------------- save

  /** `save_interaction`: one INSERT carrying both texts, the three embeddings
      and the clock reading `now` (`str(time.time())`). */
  function Save(o: Oracles, db: Db, userId: string, u: string, b: string, now: string): (r: Result<Db, DbError>)
    ensures r.Failure? <==> !db.embeddingColumns
    ensures r.Success? ==>
      var rows := r.value.rows;
      && r.value.embeddingColumns
      && |rows| == |db.rows| + 1
      && rows[..|db.rows|] == db.rows
      && var row := rows[|db.rows|];
         && row.userId == userId
         && row.timestamp == now
         && row.userInput == Some(u)
         && row.botResponse == Some(b)
         && row.userEmbedding == Some(o.dumps(o.encode(u)))
         && row.botEmbedding == Some(o.dumps(o.encode(b)))
         && row.combinedEmbedding == Some(o.dumps(o.encode("User: " + u + " Bot: " + b)))
         && forall prev :: prev in db.rows ==> prev.id < row.id
    ensures r.Success? && IdsIncreasing(db.rows) ==> IdsIncreasing(r.value.rows)
  {
    if !db.embeddingColumns then Failure(NoSuchColumn)
    else
      var row := Row(MaxId(db.rows) + 1, userId, now, Some(u), Some(b),
                     Some(EmbeddingOf(o, u)), Some(EmbeddingOf(o, b)),
                     Some(EmbeddingOf(o, CombinedText(u, b))));
      assert (db.rows + [row])[..|db.rows|] == db.rows;
      Success(db.(rows := db.rows + [row]))
  }

  // ---------------------------------------------------------------- recent

  function OfUser(rows: seq<Row>, userId: string): seq<Row>
  {
    Ranking.Filter(rows, (r: Row) => r.userId == userId)
  }

  /** `ORDER BY timestamp DESC`: `a` may be listed before `b`. */
  predicate NewerOrSame(a: Row, b: Row)
  {
    TextLe(b.timestamp, a.timestamp)
  }

  lemma NewerOrSameIsTotalPreorder()
    ensures Ranking.TotalPreorder(NewerOrSame)
  {
    forall a: Row, b: Row ensures NewerOrSame(a, b) || NewerOrSame(b, a) {
      TextLeTotal(a.timestamp, b.timestamp);
    }
    forall a: Row, b: Row, c: Row | NewerOrSame(a, b) && NewerOrSame(b, c)
      ensures NewerOrSame(a, c)
    {
      TextLeTransitive(c.timestamp, b.timestamp, a.timestamp);
    }
  }

  /** `ORDER BY timestamp DESC LIMIT limit` over the user's rows. */
  function Newest(mine: seq<Row>, limit: nat): (r: seq<Row>)
    ensures |r| == (if limit < |mine| then limit else |mine|)
    ensures multiset(r) <= multiset(mine)
    ensures forall i, j :: 0 <= i < j < |r| ==> TextLe(r[j].timestamp, r[i].timestamp)
    ensures forall x, y :: x in r && y in multiset(mine) - multiset(r) ==>
      TextLe(y.timestamp, x.timestamp)
  {
    NewerOrSameIsTotalPreorder();
    var r := Ranking.Top(mine, limit, NewerOrSame);
    assert forall x, y :: x in r && y in multiset(mine) - multiset(r) ==>
      TextLe(y.timestamp, x.timestamp) by
    {
      forall x, y | x in r && y in multiset(mine) - multiset(r)
        ensures TextLe(y.timestamp, x.timestamp)
      {
        assert NewerOrSame(x, y);
      }
    }
    r
  }

  /** The rows `get_recent_context` selects: the user's `limit` newest rows by
      timestamp text, turned back into ascending (chronological) order. */
  function RecentRows(rows: seq<Row>, userId: string, limit: nat): (r: seq<Row>)
    requires limit > 0
    ensures var mine := OfUser(rows, userId);
      |r| == (if limit < |mine| then limit else |mine|)
    ensures forall x :: x in r ==> x in rows && x.userId == userId
    ensures multiset(r) <= multiset(OfUser(rows, userId))
    ensures forall i, j :: 0 <= i < j < |r| ==> TextLe(r[i].timestamp, r[j].timestamp)
    ensures forall x, y :: x in r && y in multiset(OfUser(rows, userId)) - multiset(r) ==>
      TextLe(y.timestamp, x.timestamp)
  {
    var mine := OfUser(rows, userId);
    var newest := Newest(mine, limit);
    var r := Ranking.Reverse(newest);
    assert forall x :: x in r ==> x in newest by {
      forall x | x in r ensures x in newest {
        assert x in multiset(r);
      }
    }
    assert forall x :: x in newest ==> x in mine by {
      forall x | x in newest ensures x in mine {
        assert x in multiset(newest);
      }
    }
    r
  }

  /** Lines `a` and `b` format rows of `userId` whose timestamps are in
      ascending order. */
  ghost predicate Chronological(rows: seq<Row>, userId: string, a: string, b: string)
  {
    exists x, y :: x in rows && y in rows && x.userId == userId && y.userId == userId
      && a == Format(x) && b == Format(y) && TextLe(x.timestamp, y.timestamp)
  }

  /** `get_recent_context`. */
  function RecentContext(db: Db, userId: string, limit: nat): (r: seq<string>)
    requires limit > 0
    ensures var mine := OfUser(db.rows, userId);
      |r| == (if limit < |mine| then limit else |mine|)
    ensures forall c :: c in r ==>
      exists x :: x in db.rows && x.userId == userId && c == Format(x)
    ensures forall i, j :: 0 <= i < j < |r| ==> Chronological(db.rows, userId, r[i], r[j])
    ensures var rs := RecentRows(db.rows, userId, limit);
      |r| == |rs| && forall i :: 0 <= i < |r| ==> r[i] == Format(rs[i])
  {
    var rs := RecentRows(db.rows, userId, limit);
    FormattedFromUser(rs, db.rows, userId);
    ChronologicalLines(rs, db.rows, userId);
    Contexts(rs)
  }

  lemma ChronologicalLines(rs: seq<Row>, rows: seq<Row>, userId: string)
    requires forall x :: x in rs ==> x in rows && x.userId == userId
    requires forall i, j :: 0 <= i < j < |rs| ==> TextLe(rs[i].timestamp, rs[j].timestamp)
    ensures forall i, j :: 0 <= i < j < |rs| ==>
      Chronological(rows, userId, Contexts(rs)[i], Contexts(rs)[j])
  {
    forall i, j | 0 <= i < j < |rs|
      ensures Chronological(rows, userId, Contexts(rs)[i], Contexts(rs)[j])
    {
      assert rs[i] in rs && rs[j] in rs;
    }
  }

  // ---------------------------------------------------------------- similar

  /** The rows the similarity query selects: the user's rows with a non-null
      combined embedding, in table order. */
  function Candidates(rows: seq<Row>, userId: string): seq<Row>
  {
    Ranking.Filter(rows, (r: Row) => r.userId == userId && r.combinedEmbedding.Some?)
  }

  /** A candidate survives the `try` block: its stored JSON converts to
      floats, and `cosine_similarity` accepts it next to the query (same
      width, at least one feature); otherwise `ValueError` sends the loop to
      `continue`. */
  predicate Scorable(o: Oracles, query: Vec, r: Row)
  {
    && r.combinedEmbedding.Some?
    && var d := o.loads(r.combinedEmbedding.value);
    && d.Floats?
    && |d.v| == |query|
    && |query| > 0
  }

  /** `Scorable` as a filter condition. */
  function ScorableUnder(o: Oracles, query: Vec): Row -> bool
  {
    (r: Row) => Scorable(o, query, r)
  }

  /** A candidate whose stored embedding raises past the handler. The query
      is checked first, so an empty query gets its caught `ValueError` before
      the stored value is converted. */
  predicate Raises(o: Oracles, query: Vec, r: Row)
  {
    r.combinedEmbedding.Some? && o.loads(r.combinedEmbedding.value).Uncaught? && |query| > 0
  }

  datatype Hit = Hit(score: real, row: Row)

  /** The `similarities` list: one scored entry per scorable row, in the order
      the rows were fetched. */
  function Score(o: Oracles, query: Vec, rows: seq<Row>): (hits: seq<Hit>)
    ensures forall h :: h in hits ==>
      && h.row in rows
      && Scorable(o, query, h.row)
      && h.score == o.cosine(query, o.loads(h.row.combinedEmbedding.value).v)
  {
    if rows == [] then []
    else
      var r := rows[0];
      assert forall x :: x in rows ==> x == r || x in rows[1..];
      var first := if Scorable(o, query, r)
        then [Hit(o.cosine(query, o.loads(r.combinedEmbedding.value).v), r)]
        else [];
      first + Score(o, query, rows[1..])
  }

  /** The scored entries follow the fetched rows: their rows are exactly the
      scorable ones, in table order. */
  lemma {:induction false} ScoreFollowsRows(o: Oracles, query: Vec, rows: seq<Row>)
    ensures HitRows(Score(o, query, rows)) == Ranking.Filter(rows, ScorableUnder(o, query))
  {
    if rows != [] {
      ScoreFollowsRows(o, query, rows[1..]);
      ScoreStep(o, query, rows);
    }
  }

  /** One step of `Score` and of the filter it follows. */
  lemma ScoreStep(o: Oracles, query: Vec, rows: seq<Row>)
    requires rows != []
    ensures var head := if Scorable(o, query, rows[0]) then [rows[0]] else [];
      && HitRows(Score(o, query, rows)) == head + HitRows(Score(o, query, rows[1..]))
      && Ranking.Filter(rows, ScorableUnder(o, query)) == head + Ranking.Filter(rows[1..], ScorableUnder(o, query))
  {
    ScoreHead(o, query, rows);
    assert ScorableUnder(o, query)(rows[0]) == Scorable(o, query, rows[0]);
  }

  lemma ScoreHead(o: Oracles, query: Vec, rows: seq<Row>)
    requires rows != []
    ensures HitRows(Score(o, query, rows)) ==
      (if Scorable(o, query, rows[0]) then [rows[0]] else []) + HitRows(Score(o, query, rows[1..]))
  {
    var r := rows[0];
    var first := if Scorable(o, query, r)
      then [Hit(o.cosine(query, o.loads(r.combinedEmbedding.value).v), r)]
      else [];
    var rest := Score(o, query, rows[1..]);
    assert Score(o, query, rows) == first + rest;
    HitRowsAppend(first, rest);
    assert HitRows(first) == if Scorable(o, query, r) then [r] else [];
  }

  lemma HitRowsAppend(a: seq<Hit>, b: seq<Hit>)
    ensures HitRows(a + b) == HitRows(a) + HitRows(b)
  {
    assert forall i :: 0 <= i < |a| + |b| ==> (a + b)[i].row == (HitRows(a) + HitRows(b))[i];
  }

  /** Every scorable row gets its score: only the rows that fail are skipped. */
  lemma {:induction false} ScoreKeepsScorable(o: Oracles, query: Vec, rows: seq<Row>, r: Row)
    requires r in rows && Scorable(o, query, r)
    ensures Hit(o.cosine(query, o.loads(r.combinedEmbedding.value).v), r) in Score(o, query, rows)
  {
    if rows[0] != r {
      ScoreKeepsScorable(o, query, rows[1..], r);
    }
  }

  /** `similarities.sort(key=lambda x: x[0], reverse=True)`. */
  predicate AtLeastAsSimilar(a: Hit, b: Hit)
  {
    a.score >= b.score
  }

  lemma AtLeastAsSimilarIsTotalPreorder()
    ensures Ranking.TotalPreorder(AtLeastAsSimilar)
  {
  }

  /** The scored candidates of `userId` against the embedding of `query`. */
  function Hits(o: Oracles, rows: seq<Row>, userId: string, query: string): seq<Hit>
  {
    Score(o, o.encode(query), Candidates(rows, userId))
  }

  /** The stable descending sort by score, cut to `limit`. */
  function BestFirst(hits: seq<Hit>, limit: nat): (r: seq<Hit>)
    ensures |r| == (if limit < |hits| then limit else |hits|)
    ensures multiset(r) <= multiset(hits)
    ensures Ranking.Sorted(r, AtLeastAsSimilar)
    ensures forall x, y :: x in r && y in multiset(hits) - multiset(r) ==> AtLeastAsSimilar(x, y)
    ensures forall x :: Ranking.TiesOf(r, x, AtLeastAsSimilar) <= Ranking.TiesOf(hits, x, AtLeastAsSimilar)
  {
    AtLeastAsSimilarIsTotalPreorder();
    Ranking.Top(hits, limit, AtLeastAsSimilar)
  }

  /** `similarities[:limit]` after the stable descending sort: as many hits as
      `limit` and the scorable rows allow, best score first, no left-out hit
      scoring higher than a returned one, equal scores kept in table order,
      and only scorable rows of the user. */
  function Ranked(o: Oracles, rows: seq<Row>, userId: string, query: string, limit: nat): (r: seq<Hit>)
    requires limit > 0
    ensures var hits := Hits(o, rows, userId, query);
      |r| == (if limit < |hits| then limit else |hits|)
    ensures Ranking.Sorted(r, AtLeastAsSimilar)
    ensures forall x, y :: x in r && y in multiset(Hits(o, rows, userId, query)) - multiset(r) ==>
      AtLeastAsSimilar(x, y)
    ensures forall x :: Ranking.TiesOf(r, x, AtLeastAsSimilar) <= Ranking.TiesOf(Hits(o, rows, userId, query), x, AtLeastAsSimilar)
    ensures forall h :: h in r ==>
      h.row in rows && h.row.userId == userId && Scorable(o, o.encode(query), h.row)
  {
    var hits := Hits(o, rows, userId, query);
    var r := BestFirst(hits, limit);
    assert forall h :: h in r ==> h in hits by {
      forall h | h in r ensures h in hits {
        assert h in multiset(r);
      }
    }
    HitsAreScorableCandidates(o, rows, userId, query);
    r
  }

  lemma HitsAreScorableCandidates(o: Oracles, rows: seq<Row>, userId: string, query: string)
    ensures forall h :: h in Hits(o, rows, userId, query) ==>
      h.row in rows && h.row.userId == userId && Scorable(o, o.encode(query), h.row)
  {
    forall h | h in Hits(o, rows, userId, query)
      ensures h.row in rows && h.row.userId == userId && Scorable(o, o.encode(query), h.row)
    {
      assert h.row in Candidates(rows, userId);
    }
  }


  function HitRows(hits: seq<Hit>): (r: seq<Row>)
    ensures |r| == |hits|
    ensures forall i :: 0 <= i < |hits| ==> r[i] == hits[i].row
  {
    seq(|hits|, i requires 0 <= i < |hits| => hits[i].row)
  }

  /** `get_similar_context` raises: the columns it selects are missing, or
      one of the user's stored combined embeddings does not convert to
      floats. */
  predicate LookupFails(o: Oracles, db: Db, userId: string, query: string)
  {
    !db.embeddingColumns || exists x :: x in db.rows && x.userId == userId && Raises(o, o.encode(query), x)
  }

  /** `get_similar_context`: similarity ranking over the user's embedded rows,
      or the recent context when the user has none. */
  function SimilarContext(o: Oracles, db: Db, userId: string, query: string, limit: nat): (r: Result<seq<string>, DbError>)
    requires limit > 0
    ensures r.Failure? <==> LookupFails(o, db, userId, query)
    ensures r == Failure(NoSuchColumn) <==> !db.embeddingColumns
    ensures r.Success? ==> forall c :: c in r.value ==>
      exists x :: x in db.rows && x.userId == userId && c == Format(x)
  {
    if !db.embeddingColumns then Failure(NoSuchColumn)
    else
      var c := Candidates(db.rows, userId);
      assert forall x :: x in db.rows && x.userId == userId && Raises(o, o.encode(query), x) ==> x in c;
      if c == [] then
        var rs := RecentRows(db.rows, userId, limit);
        FormattedFromUser(rs, db.rows, userId);
        Success(Contexts(rs))
      else if exists x :: x in c && Raises(o, o.encode(query), x) then Failure(NotNumeric)
      else
        var rs := HitRows(Ranked(o, db.rows, userId, query, limit));
        FormattedFromUser(rs, db.rows, userId);
        Success(Contexts(rs))
  }

  lemma FormattedFromUser(picked: seq<Row>, rows: seq<Row>, userId: string)
    requires forall x :: x in picked ==> x in rows && x.userId == userId
    ensures forall c :: c in Contexts(picked) ==>
      exists x :: x in rows && x.userId == userId && c == Format(x)
  {
    forall c | c in Contexts(picked)
      ensures exists x :: x in rows && x.userId == userId && c == Format(x)
    {
      var i :| 0 <= i < |picked| && Contexts(picked)[i] == c;
      assert picked[i] in picked;
    }
  }


  /** The fallback is taken exactly when the user has no row with a combined
      embedding; otherwise the answer is the ranked one, unless a stored
      embedding raises. */
  lemma SimilarFallsBackExactlyWithoutCandidates(o: Oracles, db: Db, userId: string, query: string, limit: nat)
    requires limit > 0 && db.embeddingColumns
    ensures (forall x :: x in db.rows && x.userId == userId ==> x.combinedEmbedding.None?) ==>
      SimilarContext(o, db, userId, query, limit) == Success(RecentContext(db, userId, limit))
    ensures (exists x :: x in db.rows && x.userId == userId && x.combinedEmbedding.Some?) ==>
      SimilarContext(o, db, userId, query, limit) ==
        if LookupFails(o, db, userId, query) then Failure(NotNumeric)
        else Success(Contexts(HitRows(Ranked(o, db.rows, userId, query, limit))))
  {
    var c := Candidates(db.rows, userId);
    if c != [] {
      assert c[0] in c;
    }
  }

  lemma {:induction false} NothingScorable(o: Oracles, query: Vec, rows: seq<Row>)
    requires forall r :: r in rows ==> !Scorable(o, query, r)
    ensures Score(o, query, rows) == []
  {
    if rows != [] {
      assert rows[0] in rows;
      NothingScorable(o, query, rows[1..]);
    }
  }

  /** When the user has embedded rows but none of them can be scored, the
      answer is empty although recent context exists: there is no second
      fallback. (If one of them raises, the lookup fails instead.) */
  lemma AllCorruptGivesNothing(o: Oracles, db: Db, userId: string, query: string, limit: nat)
    requires limit > 0 && db.embeddingColumns
    requires exists x :: x in db.rows && x.userId == userId && x.combinedEmbedding.Some?
    requires forall x :: x in db.rows && x.userId == userId ==> !Scorable(o, o.encode(query), x)
    ensures SimilarContext(o, db, userId, query, limit) ==
      if LookupFails(o, db, userId, query) then Failure(NotNumeric) else Success([])
    ensures RecentContext(db, userId, limit) != []
  {
    var c := Candidates(db.rows, userId);
    var x :| x in db.rows && x.userId == userId && x.combinedEmbedding.Some?;
    assert x in c;
    NothingScorable(o, o.encode(query), c);
    assert x in OfUser(db.rows, userId);
  }

  /** Saving an exchange for a user with no history and then asking with
      limit 1 gives back exactly that exchange, provided the stored JSON
      converts back to the vector and has the query's width. */
  lemma SaveThenRecall(o: Oracles, db: Db, userId: string, u: string, b: string, now: string, query: string)
    requires db.embeddingColumns
    requires forall x :: x in db.rows ==> x.userId != userId
    requires var v := o.encode(CombinedText(u, b));
      o.loads(o.dumps(v)) == Floats(v) && |v| == |o.encode(query)| > 0
    ensures Save(o, db, userId, u, b, now).Success?
    ensures SimilarContext(o, Save(o, db, userId, u, b, now).value, userId, query, 1)
         == Success(["User: " + u + " | Bot: " + b])
  {
    var db' := Save(o, db, userId, u, b, now).value;
    var row := db'.rows[|db.rows|];
    assert db'.rows == db.rows + [row];
    assert Scorable(o, o.encode(query), row);
    RecallOnlyRow(o, db', userId, query, row);
  }

  /** A user whose rows are all one scorable exchange gets that exchange back
      at limit 1. */
  lemma RecallOnlyRow(o: Oracles, db: Db, userId: string, query: string, row: Row)
    requires db.embeddingColumns
    requires row in db.rows && row.userId == userId
    requires forall x :: x in db.rows && x.userId == userId ==> x == row
    requires Scorable(o, o.encode(query), row)
    ensures SimilarContext(o, db, userId, query, 1) == Success([Format(row)])
  {
    var top := OnlyRowRanked(o, db, userId, query, row);
    assert !LookupFails(o, db, userId, query) by {
      forall x | x in db.rows && x.userId == userId
        ensures !Raises(o, o.encode(query), x)
      {
        assert x == row;
      }
    }
    SimilarFallsBackExactlyWithoutCandidates(o, db, userId, query, 1);
    assert Contexts(HitRows(top)) == [Format(row)];
  }

  /** The ranking of such a user at limit 1 is that one row's entry. */
  lemma OnlyRowRanked(o: Oracles, db: Db, userId: string, query: string, row: Row) returns (top: seq<Hit>)
    requires row in db.rows && row.userId == userId
    requires forall x :: x in db.rows && x.userId == userId ==> x == row
    requires Scorable(o, o.encode(query), row)
    ensures top == Ranked(o, db.rows, userId, query, 1)
    ensures |top| == 1 && top[0].row == row
  {
    var q := o.encode(query);
    assert row in Candidates(db.rows, userId);
    ScoreKeepsScorable(o, q, Candidates(db.rows, userId), row);
    top := Ranked(o, db.rows, userId, query, 1);
    assert top[0] in top;
  }

  lemma OnlyRowOfUser(rows: seq<Row>, row: Row, userId: string)
    requires forall x :: x in rows ==> x.userId != userId
    requires row.userId == userId && row.combinedEmbedding.Some?
    ensures Candidates(rows + [row], userId) == [row]
  {
    var p := (r: Row) => r.userId == userId && r.combinedEmbedding.Some?;
    Ranking.FilterAppend(rows, row, p);
    Ranking.FilterNone(rows, p);
  }


  // ---------------------------------------------------------------- migrate

  /** Python truthiness of a nullable TEXT value. */
  predicate Truthy(t: Option<string>)
  {
    t.Some? && t.value != ""
  }

  /** The rows the migration loop rewrites. */
  predicate NeedsBackfill(r: Row)
  {
    r.combinedEmbedding.None? && Truthy(r.userInput) && Truthy(r.botResponse)
  }

  function Backfill(o: Oracles, r: Row): Row
  {
    if NeedsBackfill(r) then
      var u := r.userInput.value;
      var b := r.botResponse.value;
      r.(userEmbedding := Some(EmbeddingOf(o, u)),
         botEmbedding := Some(EmbeddingOf(o, b)),
         combinedEmbedding := Some(EmbeddingOf(o, CombinedText(u, b))))
    else r
  }

  /** Same exchange: key, owner, clock and both texts agree. */
  predicate SameExchange(a: Row, b: Row)
  {
    a.id == b.id && a.userId == b.userId && a.timestamp == b.timestamp
    && a.userInput == b.userInput && a.botResponse == b.botResponse
  }

  /** `migrate_existing_data`: add the embedding columns when missing, then
      fill all three embeddings of every row that lacks a combined one and has
      two non-empty texts. */
  function Migrate(o: Oracles, db: Db): (m: Db)
    requires WellFormed(db)
    ensures m.embeddingColumns
    ensures |m.rows| == |db.rows|
    ensures forall i :: 0 <= i < |db.rows| ==> SameExchange(m.rows[i], db.rows[i])
    ensures forall i :: 0 <= i < |db.rows| && NeedsBackfill(db.rows[i]) ==>
      var u := db.rows[i].userInput.value;
      var b := db.rows[i].botResponse.value;
      && m.rows[i].userEmbedding == Some(o.dumps(o.encode(u)))
      && m.rows[i].botEmbedding == Some(o.dumps(o.encode(b)))
      && m.rows[i].combinedEmbedding == Some(o.dumps(o.encode("User: " + u + " Bot: " + b)))
    ensures forall i :: 0 <= i < |db.rows| && !NeedsBackfill(db.rows[i]) ==> m.rows[i] == db.rows[i]
    ensures forall i :: 0 <= i < |m.rows| ==> !NeedsBackfill(m.rows[i])
  {
    Db(true, seq(|db.rows|, i requires 0 <= i < |db.rows| => Backfill(o, db.rows[i])))
  }

  /** A second migration changes nothing. */
  lemma MigrateIdempotent(o: Oracles, db: Db)
    requires WellFormed(db)
    ensures Migrate(o, Migrate(o, db)) == Migrate(o, db)
  {
    var m := Migrate(o, db);
    assert Migrate(o, m).rows == m.rows;
  }
}
