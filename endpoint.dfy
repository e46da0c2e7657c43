/** The three request handlers of the lootbox service, with the random number
    generator replaced by an injected sequence of pre-drawn outcomes.

    The service draws, for each position of a batch, a rarity index from a
    weighted sampler built from `RarityWeights`, and then an item of that
    rarity uniformly. Both are oracles here: position `i` of a batch uses
    `draws[i]`, whose `tier` is the sampler's outcome and whose `item` is the
    uniform pick among the chosen rarity's items. */
module Endpoint {
  import opened Data
  import opened Schema

  /** The outcomes of the two random draws one position consumes, in order:
      first the weighted rarity draw, then the uniform item draw. */
  datatype Draw = Draw(tier: nat, item: nat)

  /** What a handler answers, reduced to what the core decides: a body to
      send with a success status, or a client error. */
  datatype Reply<T> = Ok(body: T) | BadRequest(error: ErrorResponse)

  /** The `302 Found` answer of `GET /`: the lootbox title, the rarity
      label and item title carried in headers, and the redirect target. */
  datatype Found = Found(lootboxTitle: string, rarity: string, itemTitle: string, location: string)

  /** The batch parameters of `GET /fancy` once validated. */
  datatype Settings = Settings(count: nat, reservedCount: nat, reservedIndex: nat)

  const TooManyReservedFrames := ErrorResponse("Too many reserved frames", 100)
  const OutOfRarityRange := ErrorResponse("Out of rarity range", 100)

  /** The larger of two indices, as Rust's `Ord::max`. */
  function Max(a: nat, b: nat): nat {
    if a < b then b else a
  }

  // ---------------------------------------------------------------------
  // Specification of GET /fancy
  // ---------------------------------------------------------------------

  /** The query checks of `GET /fancy`, in the handler's order: first the
      reserved count against the batch size, then the reserved rarity against
      the number of rarity groups. An omitted parameter takes its default and
      is not checked. */
  function Validate(q: FancyApiQuery, rarityCount: nat): (r: Reply<Settings>)
    ensures r.BadRequest? <==>
      (q.reservedCount.Some? && q.reservedCount.value > q.count.UnwrapOr(1)) ||
      (q.reservedRarity.Some? && q.reservedRarity.value >= rarityCount)
    ensures q.reservedCount.Some? && q.reservedCount.value > q.count.UnwrapOr(1) ==> r == BadRequest(TooManyReservedFrames)
    ensures r.BadRequest? ==> r.error.code == 100
    ensures r.Ok? ==> r.body.count == q.count.UnwrapOr(1) && r.body.reservedCount <= r.body.count
    ensures r.Ok? ==> r.body == Settings(q.count.UnwrapOr(1), q.reservedCount.UnwrapOr(0), q.reservedRarity.UnwrapOr(0))
    ensures r.Ok? && q.reservedRarity.Some? ==> r.body.reservedIndex < rarityCount
  {
    var count := q.count.UnwrapOr(1);
    if q.reservedCount.Some? && q.reservedCount.value > count then
      BadRequest(TooManyReservedFrames)
    else if q.reservedRarity.Some? && q.reservedRarity.value >= rarityCount then
      BadRequest(OutOfRarityRange)
    else
      Ok(Settings(count, q.reservedCount.UnwrapOr(0), q.reservedRarity.UnwrapOr(0)))
  }

  /** Position `i` of a batch of `count` is reserved when at most
      `reservedCount` positions, itself included, remain. */
  predicate IsReserved(count: nat, i: nat, reservedCount: nat) {
    count - i <= reservedCount
  }

  /** The rarity index a position uses: a reserved position raises the
      sampled index to the reserved index (it does not draw again); an
      unreserved one keeps the sampled index. */
  function TierIndex(draw: nat, reserved: bool, reservedIndex: nat): (index: nat)
    ensures reserved ==> reservedIndex <= index && draw <= index
    ensures reserved ==> index == draw || index == reservedIndex
    ensures !reserved ==> index == draw
  {
    if reserved then Max(draw, reservedIndex) else draw
  }

  /** The sampler only yields indices of the weight vector it was built
      from, `RarityWeights(lootbox)`. */
  predicate TierDrawsFit(lootbox: Lootbox, draws: seq<Draw>, count: nat) {
    count <= |draws| && forall i :: 0 <= i < count ==> draws[i].tier < |RarityWeights(lootbox)|
  }

  /** Each item draw picks among the items of the rarity the position ends
      up using, after any raise. */
  predicate ItemDrawsFit(lootbox: Lootbox, draws: seq<Draw>, s: Settings)
    requires s.count <= |draws|
  {
    forall i :: 0 <= i < s.count ==>
      var index := TierIndex(draws[i].tier, IsReserved(s.count, i, s.reservedCount), s.reservedIndex);
      index < |lootbox.rarities| ==> draws[i].item < |lootbox.rarities[index].items|
  }

  /** The draws are ones the two oracles can produce for a batch run with `s`. */
  predicate DrawsFit(lootbox: Lootbox, draws: seq<Draw>, s: Settings) {
    TierDrawsFit(lootbox, draws, s.count) && ItemDrawsFit(lootbox, draws, s)
  }

  /** What the oracles guarantee for a `GET /fancy` request; a rejected
      request consumes no draw, so nothing is asked of the draws then. */
  predicate FancyDrawsFit(lootbox: Lootbox, q: FancyApiQuery, draws: seq<Draw>) {
    var v := Validate(q, |lootbox.rarities|);
    v.Ok? ==> DrawsFit(lootbox, draws, v.body)
  }

  /** A draw whose rarity index and item index both exist. */
  predicate Resolves(lootbox: Lootbox, index: nat, item: nat) {
    index < |lootbox.rarities| && item < |lootbox.rarities[index].items|
  }

  /** The frame one position yields: the label of the rarity it uses, and
      the title and URL of one item of that rarity. */
  function ResolveFrame(lootbox: Lootbox, d: Draw, reserved: bool, reservedIndex: nat): (frame: FancyApiResponseFrame)
    requires Resolves(lootbox, TierIndex(d.tier, reserved, reservedIndex), d.item)
    ensures frame.reserved == reserved
    ensures frame.rarity == lootbox.rarities[TierIndex(d.tier, reserved, reservedIndex)].name
    ensures Item(frame.title, frame.url) == lootbox.rarities[TierIndex(d.tier, reserved, reservedIndex)].items[d.item]
    ensures Item(frame.title, frame.url) in lootbox.rarities[TierIndex(d.tier, reserved, reservedIndex)].items
  {
    var rarity := lootbox.rarities[TierIndex(d.tier, reserved, reservedIndex)];
    var item := rarity.items[d.item];
    FancyApiResponseFrame(rarity.name, reserved, item.title, item.url)
  }

  /** The first `n` frames of a batch run with `s`: each position `i` is
      resolved from its own draw `draws[i]`, reserved or not by its place. */
  function Frames(lootbox: Lootbox, draws: seq<Draw>, s: Settings, n: nat): (frames: seq<FancyApiResponseFrame>)
    requires n <= s.count
    requires DrawsFit(lootbox, draws, s)
    requires 0 < s.count ==> s.reservedIndex < |lootbox.rarities|
    ensures |frames| == n
    ensures forall i :: 0 <= i < n ==>
      Resolves(lootbox, TierIndex(draws[i].tier, IsReserved(s.count, i, s.reservedCount), s.reservedIndex), draws[i].item) &&
      frames[i] == ResolveFrame(lootbox, draws[i], IsReserved(s.count, i, s.reservedCount), s.reservedIndex)
  {
    if n == 0 then []
    else
      var i := n - 1;
      Frames(lootbox, draws, s, i) + [ResolveFrame(lootbox, draws[i], IsReserved(s.count, i, s.reservedCount), s.reservedIndex)]
  }

  /** The answer of `GET /fancy`: the validation outcome, or the lootbox
      title and the frames of a batch of the requested size. */
  function FancySpec(lootbox: Lootbox, q: FancyApiQuery, draws: seq<Draw>): (reply: Reply<FancyApiResponse>)
    requires FancyDrawsFit(lootbox, q, draws)
    ensures reply.BadRequest? <==> Validate(q, |lootbox.rarities|).BadRequest?
    ensures reply.BadRequest? ==> reply.error == Validate(q, |lootbox.rarities|).error
    ensures reply.Ok? ==> reply.body.title == lootbox.title && |reply.body.result| == q.count.UnwrapOr(1)
  {
    match Validate(q, |lootbox.rarities|)
    case BadRequest(e) => BadRequest(e)
    case Ok(s) =>
      // An omitted reserved rarity is 0, which is in range once one rarity can be drawn.
      assert 0 < s.count ==> draws[0].tier < |RarityWeights(lootbox)| == |lootbox.rarities|;
      Ok(FancyApiResponse(lootbox.title, Frames(lootbox, draws, s, s.count)))
  }

  // ---------------------------------------------------------------------
  // Specification of GET /api
  // ---------------------------------------------------------------------

  /** A single draw as the oracles yield it: the sampled index is an index
      of the weight vector, and the item pick an index of that rarity's items. */
  predicate DrawFits(lootbox: Lootbox, d: Draw) {
    d.tier < |RarityWeights(lootbox)| &&
    (d.tier < |lootbox.rarities| ==> d.item < |lootbox.rarities[d.tier].items|)
  }

  /** The draws of the first `count` positions of a plain batch, which never
      raises the rarity index. */
  predicate ApiDrawsFit(lootbox: Lootbox, draws: seq<Draw>, count: nat) {
    count <= |draws| && forall i :: 0 <= i < count ==> DrawFits(lootbox, draws[i])
  }

  /** The URLs of the first `n` draws of a plain batch. */
  function ApiUrls(lootbox: Lootbox, draws: seq<Draw>, n: nat): (urls: seq<string>)
    requires ApiDrawsFit(lootbox, draws, n)
    ensures |urls| == n
    ensures forall i :: 0 <= i < n ==>
      urls[i] == lootbox.rarities[draws[i].tier].items[draws[i].item].url
  {
    if n == 0 then []
    else
      var d := draws[n - 1];
      ApiUrls(lootbox, draws, n - 1) + [lootbox.rarities[d.tier].items[d.item].url]
  }

  // ---------------------------------------------------------------------
  // The handlers
  // ---------------------------------------------------------------------

  /** `GET /`: one rarity draw, one item draw of that rarity, answered as a
      redirect to the item's URL. It answers exactly what `GET /fancy` with
      every parameter omitted puts in its single frame. */
  method Index(lootbox: Lootbox, draw: Draw) returns (found: Found)
    requires DrawFits(lootbox, draw)
    ensures Resolves(lootbox, draw.tier, draw.item)
    ensures found.lootboxTitle == lootbox.title
    ensures found.rarity == lootbox.rarities[draw.tier].name
    ensures Item(found.itemTitle, found.location) == lootbox.rarities[draw.tier].items[draw.item]
    ensures FancyDrawsFit(lootbox, FancyApiQuery(None, None, None), [draw])
    ensures var reply := FancySpec(lootbox, FancyApiQuery(None, None, None), [draw]);
      reply.Ok? && |reply.body.result| == 1 &&
      reply.body.result[0] == FancyApiResponseFrame(found.rarity, false, found.itemTitle, found.location)
  {
    var rarity := lootbox.rarities[draw.tier];
    var item := rarity.items[draw.item];
    found := Found(lootbox.title, rarity.name, item.title, item.url);
  }

  /** `GET /api`: `count` (default 1) plain draws; `consumed` is how many
      positions' worth of draws were taken from the generator. */
  method Api(lootbox: Lootbox, q: SimpleApiQuery, draws: seq<Draw>) returns (response: SimpleApiResponse, consumed: nat)
    requires ApiDrawsFit(lootbox, draws, q.count.UnwrapOr(1))
    ensures response == SimpleApiResponse(lootbox.title, ApiUrls(lootbox, draws, q.count.UnwrapOr(1)))
    ensures consumed == q.count.UnwrapOr(1)
  {
    var count := q.count.UnwrapOr(1);
    var result: seq<string> := [];
    consumed := 0;
    for i := 0 to count
      invariant consumed == i
      invariant result == ApiUrls(lootbox, draws, i)
    {
      var draw := draws[consumed];
      consumed := consumed + 1;
      var rarity := lootbox.rarities[draw.tier];
      var item := rarity.items[draw.item];
      result := result + [item.url];
    }
    response := SimpleApiResponse(lootbox.title, result);
  }

  /** `GET /fancy`: validates the query, then draws `count` frames of which
      the trailing `reserved_count` are raised to at least the reserved
      rarity. `consumed` is how many positions' worth of draws were taken
      from the generator: none when the query is rejected. */
  method Fancy(lootbox: Lootbox, q: FancyApiQuery, draws: seq<Draw>) returns (reply: Reply<FancyApiResponse>, consumed: nat)
    requires FancyDrawsFit(lootbox, q, draws)
    ensures reply == FancySpec(lootbox, q, draws)
    ensures consumed == if reply.Ok? then |reply.body.result| else 0
  {
    consumed := 0;
    var count := q.count.UnwrapOr(1);
    var reservedCount: nat;
    match q.reservedCount {
      case Some(i) =>
        if i <= count {
          reservedCount := i;
        } else {
          reply := BadRequest(TooManyReservedFrames);
          return;
        }
      case None =>
        reservedCount := 0;
    }
    var reservedIndex: nat;
    match q.reservedRarity {
      case Some(i) =>
        if i < |lootbox.rarities| {
          reservedIndex := i;
        } else {
          reply := BadRequest(OutOfRarityRange);
          return;
        }
      case None =>
        reservedIndex := 0;
    }
    ghost var s := Settings(count, reservedCount, reservedIndex);
    assert Validate(q, |lootbox.rarities|) == Ok(s);

    var result: seq<FancyApiResponseFrame> := [];
    for i := 0 to count
      invariant consumed == i
      invariant 0 < count ==> reservedIndex < |lootbox.rarities|
      invariant result == Frames(lootbox, draws, s, i)
    {
      var reserved := count - i <= reservedCount;
      var draw := draws[consumed];
      consumed := consumed + 1;
      var index := if reserved then Max(draw.tier, reservedIndex) else draw.tier;
      var rarity := lootbox.rarities[index];
      var item := rarity.items[draw.item];
      result := result + [FancyApiResponseFrame(rarity.name, reserved, item.title, item.url)];
    }
    reply := Ok(FancyApiResponse(lootbox.title, result));
  }
}
