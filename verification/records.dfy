/** Turning the parsed model output into database rows: the `map` that projects each
    influencer onto the Influencer columns and the `flatMap` that turns every claim
    into a Post row tagged with its influencer's id. */
module Records {
  import opened Wrappers
  import opened JsValues
  import opened Sequences

  /** The six Influencer columns. Each holds whatever the parsed object carried under
      that key, `undefined` when it carried nothing. There is no `claims` column. */
  datatype InfluencerRow = InfluencerRow(
    id: Value,
    name: Value,
    category: Value,
    trustScore: Value,
    followersCount: Value,
    verifiedClaims: Value)

  /** The four Post columns written for one claim. */
  datatype PostRow = PostRow(content: Value, status: Value, trustScore: Value, influencerId: Value)

  // ---------------------------------------------------------------------------
  // Influencer rows

  /** The object literal built for one influencer; reading a field of a nullish
      influencer throws. */
  function ShapeInfluencer(influencer: Value): Result<InfluencerRow, JsError> {
    if IsNullish(influencer) then Err(TypeError)
    else Ok(InfluencerRow(
      Property(influencer, "id"),
      Property(influencer, "name"),
      Property(influencer, "category"),
      Property(influencer, "trustScore"),
      Property(influencer, "followersCount"),
      Property(influencer, "verifiedClaims")))
  }

  /** `influencers.map(...)` over the elements, left to right; the first throw aborts. */
  function ShapeAll(influencers: seq<Value>): (r: Result<seq<InfluencerRow>, JsError>)
    ensures r.Ok? <==> forall i :: 0 <= i < |influencers| ==> !IsNullish(influencers[i])
    ensures r.Ok? ==> |r.value| == |influencers|
    ensures r.Ok? ==> forall i :: 0 <= i < |influencers| ==>
      && r.value[i].id == Property(influencers[i], "id")
      && r.value[i].name == Property(influencers[i], "name")
      && r.value[i].category == Property(influencers[i], "category")
      && r.value[i].trustScore == Property(influencers[i], "trustScore")
      && r.value[i].followersCount == Property(influencers[i], "followersCount")
      && r.value[i].verifiedClaims == Property(influencers[i], "verifiedClaims")
    ensures r.Err? ==> r.error == TypeError
  {
    if influencers == [] then Ok([])
    else
      match ShapeInfluencer(influencers[0])
      case Err(e) => Err(e)
      case Ok(row) =>
        match ShapeAll(influencers[1..])
        case Err(e) => Err(e)
        case Ok(rows) => Ok([row] + rows)
  }

  /** The `data` argument of the Influencer `createMany`: the parsed value must be an
      array (`.map` of anything else throws) of non-nullish elements, and row `i`
      copies the six columns of element `i`. */
  function ShapeInfluencers(parsed: Value): (r: Result<seq<InfluencerRow>, JsError>)
    ensures r.Ok? <==> parsed.Arr? && forall i :: 0 <= i < |parsed.items| ==> !IsNullish(parsed.items[i])
    ensures r.Ok? ==> |r.value| == |parsed.items|
    ensures r.Ok? ==> forall i :: 0 <= i < |r.value| ==>
      && r.value[i].id == Property(parsed.items[i], "id")
      && r.value[i].name == Property(parsed.items[i], "name")
      && r.value[i].category == Property(parsed.items[i], "category")
      && r.value[i].trustScore == Property(parsed.items[i], "trustScore")
      && r.value[i].followersCount == Property(parsed.items[i], "followersCount")
      && r.value[i].verifiedClaims == Property(parsed.items[i], "verifiedClaims")
  {
    if parsed.Arr? then ShapeAll(parsed.items) else Err(TypeError)
  }

  // ---------------------------------------------------------------------------
  // Post rows

  /** The claims an influencer carries, when `claims` is an array. */
  function ClaimsOf(influencer: Value): seq<Value> {
    var claims := Property(influencer, "claims");
    if claims.Arr? then claims.items else []
  }

  /** `influencer.claims.map(...)` can run: the influencer is not nullish, its
      `claims` is an array, and none of the claims is nullish. */
  predicate HasClaimList(influencer: Value) {
    && !IsNullish(influencer)
    && Property(influencer, "claims").Arr?
    && forall c :: 0 <= c < |ClaimsOf(influencer)| ==> !IsNullish(ClaimsOf(influencer)[c])
  }

  /** The Post row for one claim of the influencer whose id is `parentId`. */
  function ClaimRow(claim: Value, parentId: Value): PostRow {
    PostRow(Property(claim, "content"), Property(claim, "status"), Property(claim, "trustScore"), parentId)
  }

  /** The inner `claims.map(...)`: one row per claim, in order. */
  function ClaimRows(claims: seq<Value>, parentId: Value): (r: Result<seq<PostRow>, JsError>)
    ensures r.Ok? <==> forall c :: 0 <= c < |claims| ==> !IsNullish(claims[c])
    ensures r.Ok? ==> |r.value| == |claims|
    ensures r.Ok? ==> forall c :: 0 <= c < |claims| ==> r.value[c] == ClaimRow(claims[c], parentId)
  {
    if claims == [] then Ok([])
    else if IsNullish(claims[0]) then Err(TypeError)
    else
      match ClaimRows(claims[1..], parentId)
      case Err(e) => Err(e)
      case Ok(rows) => Ok([ClaimRow(claims[0], parentId)] + rows)
  }

  /** The rows one influencer contributes to the `flatMap`. */
  function PostsOfInfluencer(influencer: Value): (r: Result<seq<PostRow>, JsError>)
    ensures r.Ok? <==> HasClaimList(influencer)
    ensures r.Ok? ==> |r.value| == |ClaimsOf(influencer)|
    ensures r.Ok? ==> forall c :: 0 <= c < |r.value| ==>
      r.value[c] == ClaimRow(ClaimsOf(influencer)[c], Property(influencer, "id"))
  {
    if IsNullish(influencer) then Err(TypeError)
    else
      var claims := Property(influencer, "claims");
      if !claims.Arr? then Err(TypeError)
      else
        assert ClaimsOf(influencer) == claims.items;
        ClaimRows(claims.items, Property(influencer, "id"))
  }

  /** Total number of claims carried by a list of influencers. */
  function TotalClaims(influencers: seq<Value>): nat {
    if influencers == [] then 0 else |ClaimsOf(influencers[0])| + TotalClaims(influencers[1..])
  }

  /** The `flatMap` over the elements, left to right; the first throw aborts. When
      and only when it succeeds is `FlattenAllSucceeds`. */
  function FlattenAll(influencers: seq<Value>): (r: Result<seq<PostRow>, JsError>)
    ensures r.Ok? ==> |r.value| == TotalClaims(influencers)
  {
    if influencers == [] then Ok([])
    else
      match PostsOfInfluencer(influencers[0])
      case Err(e) => Err(e)
      case Ok(rows) =>
        match FlattenAll(influencers[1..])
        case Err(e) => Err(e)
        case Ok(rest) => Ok(rows + rest)
  }

  /** The `flatMap` succeeds exactly when every influencer has a usable claim list. */
  lemma {:induction false} FlattenAllSucceeds(influencers: seq<Value>)
    ensures FlattenAll(influencers).Ok? <==> forall i :: 0 <= i < |influencers| ==> HasClaimList(influencers[i])
    decreases |influencers|
  {
    if influencers != [] {
      FlattenAllSucceeds(influencers[1..]);
      assert forall i :: 0 < i < |influencers| ==> influencers[i] == influencers[1..][i - 1];
    }
  }

  /** `postsData`: every claim of every influencer as a Post row. */
  function FlattenPosts(parsed: Value): (r: Result<seq<PostRow>, JsError>)
    ensures r.Ok? <==> parsed.Arr? && forall i :: 0 <= i < |parsed.items| ==> HasClaimList(parsed.items[i])
    ensures r.Ok? ==> |r.value| == TotalClaims(parsed.items)
  {
    if parsed.Arr? then
      FlattenAllSucceeds(parsed.items);
      FlattenAll(parsed.items)
    else Err(TypeError)
  }

  // ---------------------------------------------------------------------------
  // Order of the Post rows

  /** Where influencer `i`'s rows start: the number of claims before it. */
  function Offset(influencers: seq<Value>, i: nat): nat
    requires i <= |influencers|
  {
    TotalClaims(influencers[..i])
  }

  /** The claims before influencer `i + 1` are those before `i` plus `i`'s own, and
      none of them lie past the total. */
  lemma {:induction false} OffsetStep(influencers: seq<Value>, i: nat)
    requires 0 < |influencers| && i < |influencers|
    ensures i == 0 ==> Offset(influencers, i) == 0
    ensures i > 0 ==> Offset(influencers, i) == |ClaimsOf(influencers[0])| + Offset(influencers[1..], i - 1)
    ensures Offset(influencers, i) + |ClaimsOf(influencers[i])| <= TotalClaims(influencers)
    decreases i
  {
    if i == 0 {
      assert influencers[..0] == [];
      assert TotalClaims(influencers) == |ClaimsOf(influencers[0])| + TotalClaims(influencers[1..]);
    } else {
      assert influencers[..i][0] == influencers[0];
      assert influencers[..i][1..] == influencers[1..][..i - 1];
      if 1 < |influencers| {
        OffsetStep(influencers[1..], i - 1);
      }
    }
  }

  /** The flattened rows are the first influencer's rows followed by the rest's. */
  lemma FlattenCons(influencers: seq<Value>)
    requires influencers != []
    ensures FlattenAll(influencers).Ok?
        <==> PostsOfInfluencer(influencers[0]).Ok? && FlattenAll(influencers[1..]).Ok?
    ensures FlattenAll(influencers).Ok? ==>
      FlattenAll(influencers).value == PostsOfInfluencer(influencers[0]).value + FlattenAll(influencers[1..]).value
  {
  }

  /** The flattened rows open with the first influencer's rows, one per claim. */
  lemma FlattenHead(influencers: seq<Value>, c: nat)
    requires FlattenAll(influencers).Ok? && influencers != []
    requires c < |ClaimsOf(influencers[0])|
    ensures c < |FlattenAll(influencers).value|
    ensures FlattenAll(influencers).value[c] == ClaimRow(ClaimsOf(influencers[0])[c], Property(influencers[0], "id"))
  {
    FlattenCons(influencers);
  }

  /** The `flatMap` over a concatenation is the concatenation of the `flatMap`s. */
  lemma {:induction false} FlattenAppend(a: seq<Value>, b: seq<Value>)
    requires FlattenAll(a + b).Ok?
    ensures FlattenAll(a).Ok? && FlattenAll(b).Ok?
    ensures FlattenAll(a + b).value == FlattenAll(a).value + FlattenAll(b).value
    decreases |a|
  {
    if a == [] {
      assert a + b == b;
    } else {
      ConsAppend(a, b);
      FlattenCons(a + b);
      FlattenAppend(a[1..], b);
      FlattenCons(a);
      AppendAssoc(PostsOfInfluencer(a[0]).value, FlattenAll(a[1..]).value, FlattenAll(b).value);
    }
  }

  /** The Post rows are ordered by influencer, then by claim: claim `c` of influencer
      `i` sits at `Offset(i) + c`, carries that claim's content, status and trust
      score, and is tagged with influencer `i`'s id. */
  lemma FlattenOrder(influencers: seq<Value>, i: nat, c: nat)
    requires FlattenAll(influencers).Ok?
    requires i < |influencers| && c < |ClaimsOf(influencers[i])|
    ensures Offset(influencers, i) + c < |FlattenAll(influencers).value|
    ensures FlattenAll(influencers).value[Offset(influencers, i) + c]
         == ClaimRow(ClaimsOf(influencers[i])[c], Property(influencers[i], "id"))
  {
    SplitAt(influencers, i);
    FlattenAppend(influencers[..i], influencers[i..]);
    FlattenHead(influencers[i..], c);
  }
}
