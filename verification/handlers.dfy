/** The refresh handler (`GET /api/influencers`) and the lookup handler
    (`GET /api/influencers/:id`) over an abstract two-table store. */
module Handlers {
  import opened Wrappers
  import opened JsValues
  import opened Extraction
  import opened Records
  import opened Sequences
  import opened Http

  /** The Influencer and Post tables, rows in storage order. */
  datatype Store = Store(influencers: seq<InfluencerRow>, posts: seq<PostRow>)

  /** Whether each database call of a refresh succeeds. The store's own checks
      (column types, unique ids, foreign keys) are not modelled: they surface here as
      a failing call. */
  datatype Backend = Backend(
    deletePostsOk: bool,
    deleteInfluencersOk: bool,
    insertInfluencersOk: bool,
    insertPostsOk: bool)

  /** The externally visible steps of a refresh. */
  datatype Effect = DeletePosts | DeleteInfluencers | CallModel | ParseReply | InsertInfluencers | InsertPosts

  /** The order the refresh handler attempts its steps in. */
  const RefreshOrder: seq<Effect> :=
    [DeletePosts, DeleteInfluencers, CallModel, ParseReply, InsertInfluencers, InsertPosts]

  /** A refresh: the response, the store it leaves, and the steps it attempted. */
  datatype RefreshRun = RefreshRun(response: Response, store: Store, effects: seq<Effect>)

  const RefreshedMessage: string := "Influencers and posts refreshed successfully!"
  const RefreshFailedMessage: string := "Failed to refresh influencer data"
  const NotFoundMessage: string := "Influencer not found"
  const LookupFailedMessage: string := "Failed to fetch influencer details"

  /** The refresh fails with a 500 after the steps in `effects`. */
  function RefreshFailed(store: Store, effects: seq<Effect>): RefreshRun {
    RefreshRun(Response(500, Failure(RefreshFailedMessage)), store, effects)
  }

  /** Every step of a refresh succeeds. */
  predicate RefreshSucceeds(backend: Backend, reply: Option<string>, parse: string -> Option<Value>) {
    && backend.deletePostsOk && backend.deleteInfluencersOk
    && reply.Some?
    && DecodeReply(reply.value, parse).Ok?
    && ShapeInfluencers(DecodeReply(reply.value, parse).value).Ok?
    && backend.insertInfluencersOk
    && FlattenPosts(DecodeReply(reply.value, parse).value).Ok?
    && backend.insertPostsOk
  }

  /** The writes that follow a successful decode: the Influencer rows are built and
      inserted, and only then are the Post rows built and inserted. The tables are
      empty when this starts. */
  function Persist(parsed: Value, backend: Backend): (r: RefreshRun)
    ensures r.response.status == 200 || r.response.status == 500
    ensures r.response.status == 200 <==>
      ShapeInfluencers(parsed).Ok? && backend.insertInfluencersOk && FlattenPosts(parsed).Ok? && backend.insertPostsOk
    ensures r.response.status == 200 ==>
      r.store == Store(ShapeInfluencers(parsed).value, FlattenPosts(parsed).value) && r.effects == RefreshOrder[4..]
    ensures r.effects <= RefreshOrder[4..]
    ensures InsertInfluencers in r.effects <==> ShapeInfluencers(parsed).Ok?
    ensures InsertPosts in r.effects <==>
      ShapeInfluencers(parsed).Ok? && backend.insertInfluencersOk && FlattenPosts(parsed).Ok?
    ensures InsertInfluencers !in r.effects ==> r.store == Store([], [])
    // a failed Influencer insert leaves both tables empty; a failure after it leaves
    // the new Influencer rows with no Post rows
    ensures InsertInfluencers in r.effects && r.response.status == 500 ==>
      r.store == Store(if backend.insertInfluencersOk then ShapeInfluencers(parsed).value else [], [])
  {
    match ShapeInfluencers(parsed)
    case Err(_) => RefreshFailed(Store([], []), [])
    case Ok(rows) =>
      if !backend.insertInfluencersOk then RefreshFailed(Store([], []), [InsertInfluencers])
      else
        match FlattenPosts(parsed)
        case Err(_) => RefreshFailed(Store(rows, []), [InsertInfluencers])
        case Ok(posts) =>
          if !backend.insertPostsOk then RefreshFailed(Store(rows, []), [InsertInfluencers, InsertPosts])
          else RefreshRun(Response(200, Message(RefreshedMessage)), Store(rows, posts), RefreshOrder[4..])
  }

  /** `GET /api/influencers`. Both tables are emptied first; then the model is asked
      for influencers (`reply` is its text, `None` when the request fails), the reply
      is decoded, and the rows are written by `Persist`. No transaction spans the
      steps: whatever a failure interrupts stays as it is. */
  function Refresh(store: Store, backend: Backend, reply: Option<string>, parse: string -> Option<Value>): (r: RefreshRun)
    ensures r.response.status == 200 || r.response.status == 500
    ensures r.response.status == 200 <==> RefreshSucceeds(backend, reply, parse)
    ensures r.response.status == 200 ==> r.response.body == Message(RefreshedMessage)
    ensures r.response.status == 500 ==> r.response.body == Failure(RefreshFailedMessage)
    // the steps run in order, each is attempted exactly when every earlier one
    // succeeded, and the run stops at the first failure
    ensures 0 < |r.effects| && r.effects <= RefreshOrder
    ensures r.response.status == 200 ==> r.effects == RefreshOrder
    ensures DeleteInfluencers in r.effects <==> backend.deletePostsOk
    ensures CallModel in r.effects <==> backend.deletePostsOk && backend.deleteInfluencersOk
    ensures ParseReply in r.effects <==>
      backend.deletePostsOk && backend.deleteInfluencersOk && reply.Some?
    ensures InsertInfluencers in r.effects <==>
      && backend.deletePostsOk && backend.deleteInfluencersOk && reply.Some?
      && DecodeReply(reply.value, parse).Ok? && ShapeInfluencers(DecodeReply(reply.value, parse).value).Ok?
    ensures InsertPosts in r.effects <==>
      && backend.deletePostsOk && backend.deleteInfluencersOk && reply.Some?
      && DecodeReply(reply.value, parse).Ok? && ShapeInfluencers(DecodeReply(reply.value, parse).value).Ok?
      && backend.insertInfluencersOk && FlattenPosts(DecodeReply(reply.value, parse).value).Ok?
    // on success the store holds exactly the rows built from the reply
    ensures r.response.status == 200 ==>
      var parsed := DecodeReply(reply.value, parse).value;
      r.store == Store(ShapeInfluencers(parsed).value, FlattenPosts(parsed).value)
    // a failed delete leaves what it did not reach
    ensures !backend.deletePostsOk ==> r.store == store
    ensures backend.deletePostsOk && !backend.deleteInfluencersOk ==> r.store == Store(store.influencers, [])
    // once the deletes succeeded, no old row survives; a failure before the
    // Influencer insert, or of that insert, leaves both tables empty, and a failure
    // after it leaves the new Influencer rows with no Post rows
    ensures backend.deletePostsOk && backend.deleteInfluencersOk && InsertInfluencers !in r.effects ==>
      r.store == Store([], [])
    ensures InsertInfluencers in r.effects && r.response.status == 500 ==>
      r.store == Store(
        if backend.insertInfluencersOk then ShapeInfluencers(DecodeReply(reply.value, parse).value).value else [],
        [])
  {
    if !backend.deletePostsOk then
      StoppedAt(1);
      RefreshFailed(store, RefreshOrder[..1])
    else if !backend.deleteInfluencersOk then
      StoppedAt(2);
      RefreshFailed(Store(store.influencers, []), RefreshOrder[..2])
    else if reply.None? then
      StoppedAt(3);
      RefreshFailed(Store([], []), RefreshOrder[..3])
    else
      match DecodeReply(reply.value, parse)
      case Err(_) =>
        StoppedAt(4);
        RefreshFailed(Store([], []), RefreshOrder[..4])
      case Ok(parsed) =>
        var rest := Persist(parsed, backend);
        AfterParse(rest.effects);
        RefreshRun(rest.response, rest.store, RefreshOrder[..4] + rest.effects)
  }

  /** The trace of a refresh that stopped at its `n`-th step, before any write. */
  lemma StoppedAt(n: nat)
    requires 1 <= n <= 4
    ensures var trace := RefreshOrder[..n];
      && 0 < |trace| && trace <= RefreshOrder
      && (DeleteInfluencers in trace <==> n >= 2)
      && (CallModel in trace <==> n >= 3)
      && (ParseReply in trace <==> n >= 4)
      && InsertInfluencers !in trace && InsertPosts !in trace
  {
    if n == 1 {
      assert RefreshOrder[..n] == [DeletePosts];
    } else if n == 2 {
      assert RefreshOrder[..n] == [DeletePosts, DeleteInfluencers];
    } else if n == 3 {
      assert RefreshOrder[..n] == [DeletePosts, DeleteInfluencers, CallModel];
    } else {
      assert RefreshOrder[..n] == [DeletePosts, DeleteInfluencers, CallModel, ParseReply];
    }
  }

  /** The trace of a refresh that reached the parse: the four steps up to it, then
      the writes `tail` attempted. */
  lemma AfterParse(tail: seq<Effect>)
    requires tail <= RefreshOrder[4..]
    ensures var full := RefreshOrder[..4] + tail;
      && 0 < |full| && full <= RefreshOrder
      && (tail == RefreshOrder[4..] ==> full == RefreshOrder)
      && DeletePosts in full && DeleteInfluencers in full && CallModel in full && ParseReply in full
      && (InsertInfluencers in full <==> InsertInfluencers in tail)
      && (InsertPosts in full <==> InsertPosts in tail)
  {
    var full := RefreshOrder[..4] + tail;
    assert RefreshOrder == RefreshOrder[..4] + RefreshOrder[4..];
    assert full[0] == DeletePosts && full[1] == DeleteInfluencers && full[2] == CallModel && full[3] == ParseReply;
  }

  // ---------------------------------------------------------------------------
  // Lookup by id

  /** The first Influencer row whose id is `id`. */
  function FindInfluencer(rows: seq<InfluencerRow>, id: Value): (r: Option<InfluencerRow>)
    ensures r.None? <==> forall i :: 0 <= i < |rows| ==> rows[i].id != id
    ensures r.Some? ==> exists i :: 0 <= i < |rows| && rows[i] == r.value
    ensures r.Some? ==> r.value.id == id
  {
    if rows == [] then None
    else if rows[0].id == id then Some(rows[0])
    else FindInfluencer(rows[1..], id)
  }

  /** The Post rows whose `influencerId` is `id`, in storage order. */
  function PostsFor(posts: seq<PostRow>, id: Value): (r: seq<PostRow>)
    ensures forall p :: multiset(r)[p] == if p.influencerId == id then multiset(posts)[p] else 0
  {
    if posts == [] then []
    else
      assert posts == [posts[0]] + posts[1..];
      if posts[0].influencerId == id then [posts[0]] + PostsFor(posts[1..], id)
    else PostsFor(posts[1..], id)
  }

  /** `GET /api/influencers/:id` with the path id already an integer; `storeOk` says
      whether the database answers. */
  function GetById(store: Store, id: int, storeOk: bool): (r: Response)
    ensures r.status == 200 || r.status == 404 || r.status == 500
    ensures r.status == 500 <==> !storeOk
    ensures r.status == 500 ==> r.body == Failure(LookupFailedMessage)
    ensures r.status == 404 <==>
      storeOk && forall i :: 0 <= i < |store.influencers| ==> store.influencers[i].id != Num(id as real)
    ensures r.status == 404 ==> r.body == Failure(NotFoundMessage)
    ensures r.status == 200 ==>
      && r.body.InfluencerWithPosts?
      && r.body.influencer in store.influencers
      && r.body.influencer.id == Num(id as real)
      && forall p :: multiset(r.body.posts)[p] ==
           if p.influencerId == Num(id as real) then multiset(store.posts)[p] else 0
  {
    if !storeOk then Response(500, Failure(LookupFailedMessage))
    else
      match FindInfluencer(store.influencers, Num(id as real))
      case None => Response(404, Failure(NotFoundMessage))
      case Some(row) => Response(200, InfluencerWithPosts(row, PostsFor(store.posts, row.id)))
  }
  // ---------------------------------------------------------------------------
  // Lookup after a refresh

  /** No two parsed influencers carry the same id. */
  ghost predicate DistinctIds(influencers: seq<Value>) {
    forall i, j :: 0 <= i < j < |influencers| ==> Property(influencers[i], "id") != Property(influencers[j], "id")
  }

  /** Selecting by id distributes over concatenation. */
  lemma {:induction false} PostsForAppend(a: seq<PostRow>, b: seq<PostRow>, id: Value)
    ensures PostsFor(a + b, id) == PostsFor(a, id) + PostsFor(b, id)
    decreases |a|
  {
    if a == [] {
      AppendEmpty(b);
    } else {
      ConsAppend(a, b);
      PostsForAppend(a[1..], b, id);
    }
  }

  /** Selecting by id from rows that all carry one id keeps all of them or none. */
  lemma {:induction false} PostsForUniform(rows: seq<PostRow>, parentId: Value, id: Value)
    requires forall k :: 0 <= k < |rows| ==> rows[k].influencerId == parentId
    ensures PostsFor(rows, id) == if parentId == id then rows else []
    decreases |rows|
  {
    if rows != [] {
      PostsForUniform(rows[1..], parentId, id);
      HeadTail(rows);
    }
  }

  /** Every Post row an influencer contributes carries that influencer's id. */
  lemma PostsOfInfluencerTagged(influencer: Value)
    requires PostsOfInfluencer(influencer).Ok?
    ensures forall k :: 0 <= k < |PostsOfInfluencer(influencer).value| ==>
      PostsOfInfluencer(influencer).value[k].influencerId == Property(influencer, "id")
  {
  }

  /** Selecting the flattened Post rows by an id that no parsed influencer has gives nothing. */
  lemma {:induction false} PostsForForeignId(influencers: seq<Value>, id: Value)
    requires FlattenAll(influencers).Ok?
    requires forall i :: 0 <= i < |influencers| ==> Property(influencers[i], "id") != id
    ensures PostsFor(FlattenAll(influencers).value, id) == []
    decreases |influencers|
  {
    if influencers != [] {
      PostsForCons(influencers, id);
      PostsForForeignId(influencers[1..], id);
    }
  }

  /** No other parsed influencer carries influencer `k`'s id. */
  ghost predicate UniqueIdAt(influencers: seq<Value>, k: nat) {
    && k < |influencers|
    && forall i :: 0 <= i < |influencers| && i != k ==>
         Property(influencers[i], "id") != Property(influencers[k], "id")
  }

  /** Distinct ids make every influencer's id unique. */
  lemma DistinctUnique(influencers: seq<Value>, k: nat)
    requires DistinctIds(influencers) && k < |influencers|
    ensures UniqueIdAt(influencers, k)
  {
    forall i | 0 <= i < |influencers| && i != k
      ensures Property(influencers[i], "id") != Property(influencers[k], "id")
    {
      if i < k {
        assert Property(influencers[i], "id") != Property(influencers[k], "id");
      } else {
        assert Property(influencers[k], "id") != Property(influencers[i], "id");
      }
    }
  }

  /** Split before position `k`, a unique id is nowhere in the prefix and unique at
      the head of the suffix. */
  lemma UniqueSplit(influencers: seq<Value>, k: nat)
    requires UniqueIdAt(influencers, k)
    ensures forall i :: 0 <= i < |influencers[..k]| ==>
      Property(influencers[..k][i], "id") != Property(influencers[k], "id")
    ensures UniqueIdAt(influencers[k..], 0) && influencers[k..][0] == influencers[k]
  {
    var pre, suf := influencers[..k], influencers[k..];
    forall i | 0 <= i < |pre|
      ensures Property(pre[i], "id") != Property(influencers[k], "id")
    {
      assert pre[i] == influencers[i];
    }
    forall i | 0 <= i < |suf| && i != 0
      ensures Property(suf[i], "id") != Property(suf[0], "id")
    {
      assert suf[i] == influencers[k + i] && suf[0] == influencers[k];
    }
  }

  /** A unique id at the head appears nowhere in the tail. */
  lemma HeadIdNotInTail(influencers: seq<Value>)
    requires UniqueIdAt(influencers, 0)
    ensures forall i :: 0 <= i < |influencers[1..]| ==>
      Property(influencers[1..][i], "id") != Property(influencers[0], "id")
  {
    var tail := influencers[1..];
    forall i | 0 <= i < |tail|
      ensures Property(tail[i], "id") != Property(influencers[0], "id")
    {
      assert tail[i] == influencers[i + 1];
    }
  }

  /** Selecting the flattened rows by an id splits into the first influencer's share
      and the rest's. */
  lemma PostsForCons(influencers: seq<Value>, id: Value)
    requires FlattenAll(influencers).Ok? && influencers != []
    ensures FlattenAll(influencers[1..]).Ok?
    ensures PostsFor(FlattenAll(influencers).value, id)
         == (if Property(influencers[0], "id") == id then PostsOfInfluencer(influencers[0]).value else [])
            + PostsFor(FlattenAll(influencers[1..]).value, id)
  {
    FlattenCons(influencers);
    var head := PostsOfInfluencer(influencers[0]).value;
    PostsOfInfluencerTagged(influencers[0]);
    PostsForUniform(head, Property(influencers[0], "id"), id);
    PostsForAppend(head, FlattenAll(influencers[1..]).value, id);
  }

  /** When no other influencer has the first one's id, selecting by that id gives
      exactly its rows. */
  lemma PostsForHead(influencers: seq<Value>)
    requires FlattenAll(influencers).Ok? && UniqueIdAt(influencers, 0)
    ensures PostsOfInfluencer(influencers[0]).Ok?
    ensures PostsFor(FlattenAll(influencers).value, Property(influencers[0], "id"))
         == PostsOfInfluencer(influencers[0]).value
  {
    var id := Property(influencers[0], "id");
    PostsForCons(influencers, id);
    HeadIdNotInTail(influencers);
    PostsForForeignId(influencers[1..], id);
    AppendEmpty(PostsOfInfluencer(influencers[0]).value);
  }

  /** When no other influencer has influencer `k`'s id, selecting the flattened Post
      rows by that id gives exactly the rows built from `k`'s claims: the influencers
      before `k` contribute nothing, `k` all its rows, and those after `k` nothing. */
  lemma PostsForFlattened(influencers: seq<Value>, k: nat)
    requires FlattenAll(influencers).Ok? && UniqueIdAt(influencers, k)
    ensures PostsOfInfluencer(influencers[k]).Ok?
    ensures PostsFor(FlattenAll(influencers).value, Property(influencers[k], "id"))
         == PostsOfInfluencer(influencers[k]).value
  {
    var id := Property(influencers[k], "id");
    SplitAt(influencers, k);
    FlattenAppend(influencers[..k], influencers[k..]);
    UniqueSplit(influencers, k);
    PostsForForeignId(influencers[..k], id);
    PostsForHead(influencers[k..]);
    PostsForAppend(FlattenAll(influencers[..k]).value, FlattenAll(influencers[k..]).value, id);
    AppendEmpty(PostsOfInfluencer(influencers[k]).value);
  }

  /** In the tables a refresh writes, the lookup of influencer `k`'s id, when no other
      influencer has it, returns `k`'s row and exactly the rows built from `k`'s claims. */
  lemma LookupInRefreshedStore(parsed: Value, id: int, k: nat)
    requires ShapeInfluencers(parsed).Ok? && FlattenPosts(parsed).Ok?
    requires UniqueIdAt(parsed.items, k) && Property(parsed.items[k], "id") == Num(id as real)
    ensures GetById(Store(ShapeInfluencers(parsed).value, FlattenPosts(parsed).value), id, true)
         == Response(200, InfluencerWithPosts(ShapeInfluencer(parsed.items[k]).value, PostsOfInfluencer(parsed.items[k]).value))
  {
    var rows := ShapeInfluencers(parsed).value;
    var found := FindInfluencer(rows, Num(id as real));
    assert rows[k].id == Num(id as real);
    var i :| 0 <= i < |rows| && rows[i] == found.value;
    assert i == k;
    assert rows[k] == ShapeInfluencer(parsed.items[k]).value;
    PostsForFlattened(parsed.items, k);
  }

  /** In the tables a refresh writes, the lookup of `id` answers 404 exactly when no
      parsed influencer has that id. */
  lemma MissInRefreshedStore(parsed: Value, id: int)
    requires ShapeInfluencers(parsed).Ok? && FlattenPosts(parsed).Ok?
    ensures GetById(Store(ShapeInfluencers(parsed).value, FlattenPosts(parsed).value), id, true).status == 404 <==>
      forall i :: 0 <= i < |parsed.items| ==> Property(parsed.items[i], "id") != Num(id as real)
  {
    var rows := ShapeInfluencers(parsed).value;
    assert forall i :: 0 <= i < |rows| ==> rows[i].id == Property(parsed.items[i], "id");
  }

  /** In the tables a refresh writes, ids being distinct, the lookup of any influencer's
      id returns that influencer's row and exactly the rows built from its claims. */
  lemma HitsInRefreshedStore(parsed: Value, id: int)
    requires ShapeInfluencers(parsed).Ok? && FlattenPosts(parsed).Ok? && DistinctIds(parsed.items)
    ensures forall k :: 0 <= k < |parsed.items| && Property(parsed.items[k], "id") == Num(id as real) ==>
      && GetById(Store(ShapeInfluencers(parsed).value, FlattenPosts(parsed).value), id, true)
         == Response(200, InfluencerWithPosts(ShapeInfluencer(parsed.items[k]).value, PostsOfInfluencer(parsed.items[k]).value))
      && |PostsOfInfluencer(parsed.items[k]).value| == |ClaimsOf(parsed.items[k])|
  {
    forall k | 0 <= k < |parsed.items| && Property(parsed.items[k], "id") == Num(id as real)
      ensures GetById(Store(ShapeInfluencers(parsed).value, FlattenPosts(parsed).value), id, true)
           == Response(200, InfluencerWithPosts(ShapeInfluencer(parsed.items[k]).value, PostsOfInfluencer(parsed.items[k]).value))
      ensures PostsOfInfluencer(parsed.items[k]).Ok?
    {
      DistinctUnique(parsed.items, k);
      LookupInRefreshedStore(parsed, id, k);
      PostsForFlattened(parsed.items, k);
    }
  }

  /** After a successful refresh, a lookup answers 404 exactly for the ids the reply
      did not contain; when the reply's ids are distinct, the lookup of influencer
      `k`'s id returns `k`'s row together with exactly the rows built from `k`'s
      claims, as many as `k` had claims. */
  lemma RefreshThenLookup(store: Store, backend: Backend, reply: Option<string>, parse: string -> Option<Value>, id: int)
    requires RefreshSucceeds(backend, reply, parse)
    ensures
      var influencers := DecodeReply(reply.value, parse).value.items;
      var after := Refresh(store, backend, reply, parse).store;
      GetById(after, id, true).status == 404 <==>
        forall i :: 0 <= i < |influencers| ==> Property(influencers[i], "id") != Num(id as real)
    ensures
      var influencers := DecodeReply(reply.value, parse).value.items;
      var after := Refresh(store, backend, reply, parse).store;
      DistinctIds(influencers) ==>
        forall k :: 0 <= k < |influencers| && Property(influencers[k], "id") == Num(id as real) ==>
          && GetById(after, id, true)
             == Response(200, InfluencerWithPosts(ShapeInfluencer(influencers[k]).value, PostsOfInfluencer(influencers[k]).value))
          && |GetById(after, id, true).body.posts| == |ClaimsOf(influencers[k])|
  {
    var parsed := DecodeReply(reply.value, parse).value;
    assert Refresh(store, backend, reply, parse).store == Store(ShapeInfluencers(parsed).value, FlattenPosts(parsed).value);
    MissInRefreshedStore(parsed, id);
    if DistinctIds(parsed.items) {
      HitsInRefreshedStore(parsed, id);
    }
  }
}
