/** What the `GET /fancy` and `GET /api` handlers promise, stated over their
    specification functions for all lootboxes, queries and draws. */
module EndpointProperties {
  import opened Data
  import opened Schema
  import opened Endpoint

  /** The number of reserved frames in a list of frames. */
  function CountReserved(frames: seq<FancyApiResponseFrame>): nat {
    if frames == [] then 0
    else CountReserved(frames[..|frames| - 1]) + (if frames[|frames| - 1].reserved then 1 else 0)
  }

  /** The URLs of a list of frames, in order. */
  function FrameUrls(frames: seq<FancyApiResponseFrame>): seq<string> {
    seq(|frames|, i requires 0 <= i < |frames| => frames[i].url)
  }

  // ---------------------------------------------------------------------
  // Validation: error cases, their order, defaults and boundaries
  // ---------------------------------------------------------------------

  /** A reserved count above the batch size is rejected with code 100, before
      the reserved rarity is looked at and before any draw is consumed. */
  lemma FancyRejectsTooManyReserved(lootbox: Lootbox, q: FancyApiQuery, draws: seq<Draw>)
    requires q.reservedCount.Some? && q.reservedCount.value > q.count.UnwrapOr(1)
    ensures FancyDrawsFit(lootbox, q, draws)
    ensures FancySpec(lootbox, q, draws) == BadRequest(ErrorResponse("Too many reserved frames", 100))
  {
  }

  /** An accepted reserved count with a reserved rarity that is not an index
      of the rarity list is rejected with code 100. */
  lemma FancyRejectsOutOfRarityRange(lootbox: Lootbox, q: FancyApiQuery, draws: seq<Draw>)
    requires q.reservedCount.None? || q.reservedCount.value <= q.count.UnwrapOr(1)
    requires q.reservedRarity.Some? && q.reservedRarity.value >= |lootbox.rarities|
    ensures FancyDrawsFit(lootbox, q, draws)
    ensures FancySpec(lootbox, q, draws) == BadRequest(ErrorResponse("Out of rarity range", 100))
  {
  }

  /** A request is rejected exactly when one of the two checks fails, and
      every rejection carries code 100. */
  lemma FancyRejectsExactly(lootbox: Lootbox, q: FancyApiQuery, draws: seq<Draw>)
    requires FancyDrawsFit(lootbox, q, draws)
    ensures FancySpec(lootbox, q, draws).BadRequest? <==>
      (q.reservedCount.Some? && q.reservedCount.value > q.count.UnwrapOr(1)) ||
      (q.reservedRarity.Some? && q.reservedRarity.value >= |lootbox.rarities|)
    ensures FancySpec(lootbox, q, draws).BadRequest? ==> FancySpec(lootbox, q, draws).error.code == 100
  {
  }

  /** Omitting both reservation parameters never yields an error: the batch
      has no reserved frame, and its size is the count, defaulting to 1. */
  lemma FancyDefaultsNeverFail(lootbox: Lootbox, q: FancyApiQuery, draws: seq<Draw>)
    requires q.reservedCount.None? && q.reservedRarity.None?
    requires FancyDrawsFit(lootbox, q, draws)
    ensures FancySpec(lootbox, q, draws).Ok?
    ensures |FancySpec(lootbox, q, draws).body.result| == q.count.UnwrapOr(1)
    ensures forall i :: 0 <= i < |FancySpec(lootbox, q, draws).body.result| ==>
      !FancySpec(lootbox, q, draws).body.result[i].reserved
  {
  }

  /** The boundary values are accepted: as many reserved frames as the
      batch holds, and the last rarity as the reserved rarity. Then every
      frame is reserved. */
  lemma FancyAcceptsBoundaries(lootbox: Lootbox, count: nat, draws: seq<Draw>)
    requires 0 < |lootbox.rarities|
    requires FancyDrawsFit(lootbox, FancyApiQuery(Some(count), Some(count), Some(|lootbox.rarities| - 1)), draws)
    ensures var reply := FancySpec(lootbox, FancyApiQuery(Some(count), Some(count), Some(|lootbox.rarities| - 1)), draws);
      reply.Ok? && |reply.body.result| == count &&
      forall i :: 0 <= i < count ==> reply.body.result[i].reserved
  {
  }

  // ---------------------------------------------------------------------
  // The batch: size, reserved positions, rarity indices, items
  // ---------------------------------------------------------------------

  /** Frame `i` is reserved exactly when it is one of the last
      `reserved_count` frames. */
  lemma ReservedFramesAreTrailing(lootbox: Lootbox, q: FancyApiQuery, draws: seq<Draw>)
    requires FancyDrawsFit(lootbox, q, draws)
    requires FancySpec(lootbox, q, draws).Ok?
    ensures var count, reservedCount := q.count.UnwrapOr(1), q.reservedCount.UnwrapOr(0);
      var frames := FancySpec(lootbox, q, draws).body.result;
      forall i :: 0 <= i < |frames| ==> (frames[i].reserved <==> count - reservedCount <= i)
  {
  }

  /** The first `n` frames of a batch hold as many reserved frames as there
      are trailing positions among them. */
  lemma {:induction false} FramesReservedCount(lootbox: Lootbox, draws: seq<Draw>, s: Settings, n: nat)
    requires n <= s.count && s.reservedCount <= s.count
    requires DrawsFit(lootbox, draws, s)
    requires 0 < s.count ==> s.reservedIndex < |lootbox.rarities|
    ensures CountReserved(Frames(lootbox, draws, s, n)) ==
      if n + s.reservedCount <= s.count then 0 else n + s.reservedCount - s.count
  {
    if n > 0 {
      var frames := Frames(lootbox, draws, s, n);
      var prefix := Frames(lootbox, draws, s, n - 1);
      FramesReservedCount(lootbox, draws, s, n - 1);
      assert frames == prefix + [frames[n - 1]];
      assert frames[..n - 1] == prefix;
      assert frames[n - 1].reserved <==> s.count - (n - 1) <= s.reservedCount;
      assert CountReserved(frames) == CountReserved(prefix) + (if frames[n - 1].reserved then 1 else 0);
    }
  }

  /** An accepted batch holds exactly `reserved_count` reserved frames. */
  lemma {:induction false} ReservedFrameCountExact(lootbox: Lootbox, q: FancyApiQuery, draws: seq<Draw>)
    requires FancyDrawsFit(lootbox, q, draws)
    requires FancySpec(lootbox, q, draws).Ok?
    ensures CountReserved(FancySpec(lootbox, q, draws).body.result) == q.reservedCount.UnwrapOr(0)
  {
    var s := Validate(q, |lootbox.rarities|).body;
    assert 0 < s.count ==> draws[0].tier < |lootbox.rarities|;
    FramesReservedCount(lootbox, draws, s, s.count);
  }

  /** Whenever the sampler yields rarity indices, every rarity index the
      batch uses is in bounds: a sampled index is, and a raised one is the
      reserved index, checked against the rarity list or defaulting to 0. */
  lemma RarityIndexInBounds(lootbox: Lootbox, q: FancyApiQuery, draws: seq<Draw>)
    requires Validate(q, |lootbox.rarities|).Ok?
    requires TierDrawsFit(lootbox, draws, Validate(q, |lootbox.rarities|).body.count)
    ensures var s := Validate(q, |lootbox.rarities|).body;
      forall i :: 0 <= i < s.count ==>
        TierIndex(draws[i].tier, IsReserved(s.count, i, s.reservedCount), s.reservedIndex) < |lootbox.rarities|
  {
  }

  /** The rarity of each frame: a reserved frame uses the sampled index raised
      to at least the reserved rarity (the sampled one when it is already that
      high), an unreserved frame the sampled index itself; the frame carries
      that rarity's label and the title and URL of one of its items. */
  lemma FrameRarities(lootbox: Lootbox, q: FancyApiQuery, draws: seq<Draw>)
    requires FancyDrawsFit(lootbox, q, draws)
    requires FancySpec(lootbox, q, draws).Ok?
    ensures var s := Validate(q, |lootbox.rarities|).body;
      var frames := FancySpec(lootbox, q, draws).body.result;
      forall i :: 0 <= i < |frames| ==>
        var index := TierIndex(draws[i].tier, frames[i].reserved, s.reservedIndex);
        index < |lootbox.rarities| &&
        (frames[i].reserved ==> s.reservedIndex <= index && (s.reservedIndex <= draws[i].tier ==> index == draws[i].tier)) &&
        (!frames[i].reserved ==> index == draws[i].tier) &&
        frames[i].rarity == lootbox.rarities[index].name &&
        Item(frames[i].title, frames[i].url) in lootbox.rarities[index].items
  {
  }

  /** A request with at least one reserved frame gets, in its last frame, an
      item of a rarity at or above the reserved rarity. */
  lemma ReservationGuarantee(lootbox: Lootbox, q: FancyApiQuery, draws: seq<Draw>)
    requires FancyDrawsFit(lootbox, q, draws)
    requires FancySpec(lootbox, q, draws).Ok?
    requires q.reservedCount.UnwrapOr(0) > 0
    ensures var frames := FancySpec(lootbox, q, draws).body.result;
      var last := frames[|frames| - 1];
      last.reserved &&
      exists index :: q.reservedRarity.UnwrapOr(0) <= index < |lootbox.rarities| &&
        last.rarity == lootbox.rarities[index].name &&
        Item(last.title, last.url) in lootbox.rarities[index].items
  {
  }

  // ---------------------------------------------------------------------
  // GET /api beside GET /fancy
  // ---------------------------------------------------------------------

  /** A plain batch is the batch `GET /fancy` draws with the reservation
      parameters omitted, reduced to URLs: same draws, same items, in the
      same order, none of them reserved. */
  lemma ApiIsUnreservedFancy(lootbox: Lootbox, count: nat, draws: seq<Draw>)
    requires ApiDrawsFit(lootbox, draws, count)
    ensures FancyDrawsFit(lootbox, FancyApiQuery(Some(count), None, None), draws)
    ensures var reply := FancySpec(lootbox, FancyApiQuery(Some(count), None, None), draws);
      reply.Ok? && reply.body.title == lootbox.title &&
      FrameUrls(reply.body.result) == ApiUrls(lootbox, draws, count) &&
      forall i :: 0 <= i < count ==> !reply.body.result[i].reserved
  {
  }
}
