# Lootbox draws (mpywd) in Dafny

This project models the core of a small HTTP service that serves random
"loot". The service reads a catalog (a *lootbox*) made of rarity groups. Each
group has a label, an integer draw weight (`probability`) and a list of URL
items. Every position of a batch draws a rarity index from a weighted sampler,
then draws an item of that rarity uniformly.

- `GET /` draws one item and redirects to its URL.
- `GET /api` draws `count` items (default 1) and answers their URLs.
- `GET /fancy` draws `count` frames. Its trailing `reserved_count` frames
  (default 0) are *reserved*. A reserved frame raises the sampled rarity index
  to at least `reserved_rarity` (default 0). The query is checked first: too
  many reserved frames, or a reserved rarity that is not an index of the
  rarity list, gives a client error with code 100.

Randomness is injected. Position `i` of a batch uses `draws[i]`, a `Draw(tier,
item)`. `tier` is what the weighted sampler returned. `item` is what the
uniform item pick returned. The two are taken in that order, one pair per
position. The sampler is an oracle, so the only thing assumed about `tier` is
that it indexes the weight vector `Data.RarityWeights` the sampler is built
from. That vector has one entry per rarity group, which is what makes the
rarity lookup safe. `item` is assumed to index the items of the rarity the
position ends up using. A rejected request consumes no draw, so nothing is
assumed about the draws then.

Files:

- `data.dfy` (module `Data`): `Item`, `Rarity`, `Lootbox` and the weight
  vector. The service's `label` field is called `name`, because `label` is a
  Dafny keyword.
- `schema.dfy` (module `Schema`): query and response records, and `Option`
  with `UnwrapOr` for omitted query parameters.
- `endpoint.dfy` (module `Endpoint`): specification functions (`Validate`,
  `TierIndex`, `ResolveFrame`, `Frames`, `FancySpec`, `ApiUrls`) and the
  three handlers as methods. `Fancy` runs the two query checks with early
  returns, then a loop that pushes one frame per position and advances a
  cursor into the draws; it is proved equal to `FancySpec`. `Api` has no
  checks, only the loop that pushes one URL per position; it is proved equal
  to `ApiUrls`. `Index` is straight-line code with one draw; it is proved
  equal to the single frame of a `GET /fancy` request with every parameter
  omitted.
- `properties.dfy` (module `EndpointProperties`): lemmas that state what the
  handlers promise, for all lootboxes, queries and draws.

`rarity_weights` borrows the lootbox immutably. In the model every value is
immutable, so no member can change the lootbox.

## Model

| member | source | states |
|---|---|---|
| `Data.RarityWeights` | src/data.rs:40-43 | one weight per rarity group, in catalog order: the weight at index `i` is the `probability` of rarity `i`, so a sampled weight index is a rarity index |
| `Data.Probabilities` | src/data.rs:42 | mapping a rarity list to its probabilities keeps the length, and element `i` is the probability of rarity `i` |
| `Endpoint.Validate` | src/endpoint.rs:80-106 | the two query checks of `fancy`: rejected if and only if `reserved_count > count` or `reserved_rarity >= len(rarities)`, the first check winning when both fail, always with code 100; when accepted, the settings used are exactly the given values, with `count` defaulting to 1 and `reserved_count` and `reserved_rarity` to 0, and with `reserved_count` at most `count` and a given `reserved_rarity` in range |
| `Endpoint.IsReserved` | src/endpoint.rs:110 | a definition with no contract of its own: position `i` is reserved when `count - i <= reserved_count`; its consequences are `EndpointProperties.ReservedFramesAreTrailing` and `EndpointProperties.ReservedFrameCountExact` |
| `Endpoint.FancySpec` | src/endpoint.rs:72-139 | the reference definition of the whole `fancy` handler: it rejects exactly when `Validate` does, with the same error, and otherwise answers the lootbox title and `count` frames; the `EndpointProperties` lemmas state the rest of what it promises |
| `Endpoint.TierIndex` | src/endpoint.rs:110-115 | a reserved position uses an index at least the reserved index and at least the sampled index, and equal to one of them (a raise, not a redraw); an unreserved position uses the sampled index. This also covers the `Max` helper, which stands for Rust's `Ord::max` |
| `Endpoint.ResolveFrame` | src/endpoint.rs:117-127 | a frame carries its reserved flag, the label of the rarity it uses, and the title and URL of the item that the position's item draw picks in that rarity |
| `Endpoint.Frames` | src/endpoint.rs:108-128 | the first `n` frames of a batch number `n`, and frame `i` is resolved from draw `i`, reserved exactly when `count - i <= reserved_count` |
| `Endpoint.ApiUrls` | src/endpoint.rs:50-58 | a plain batch of `n` holds `n` URLs, and URL `i` is the URL of item `draws[i].item` of rarity `draws[i].tier` |
| `Endpoint.Index` | src/endpoint.rs:17-37 | the redirect names the lootbox title, the sampled rarity's label and the item the item draw picks in that rarity; it is the single frame `GET /fancy` answers with every parameter omitted, unreserved |
| `Endpoint.Api` | src/endpoint.rs:41-69 | the loop answers the lootbox title and the URLs of `ApiUrls` for `count` (default 1), and consumes exactly `count` positions' draws |
| `Endpoint.Fancy` | src/endpoint.rs:72-139 | the checks and the loop answer exactly `FancySpec`: the same error in the same order, or the same frames; a rejected request consumes no draw, an accepted one one pair per frame |
| `EndpointProperties.FancyRejectsTooManyReserved` | src/endpoint.rs:81-92 | `reserved_count > count` gives BadRequest with code 100 and "Too many reserved frames", whatever the reserved rarity, with no frame drawn |
| `EndpointProperties.FancyRejectsOutOfRarityRange` | src/endpoint.rs:94-105 | an accepted reserved count with `reserved_rarity >= len(rarities)` gives BadRequest with code 100 and "Out of rarity range" |
| `EndpointProperties.FancyRejectsExactly` | src/endpoint.rs:80-106 | a request is rejected if and only if one of the two checks fails, and every rejection has code 100 |
| `EndpointProperties.FancyDefaultsNeverFail` | src/endpoint.rs:80-96 | with both reservation parameters omitted the request is accepted, holds `count` frames (default 1) and none is reserved |
| `EndpointProperties.FancyAcceptsBoundaries` | src/endpoint.rs:82-95 | `reserved_count == count` together with `reserved_rarity == len(rarities) - 1` is accepted, and then every frame is reserved |
| `EndpointProperties.ReservedFramesAreTrailing` | src/endpoint.rs:109-110 | frame `i` is reserved if and only if `i >= count - reserved_count`: the reserved frames are the last ones |
| `EndpointProperties.FramesReservedCount` | src/endpoint.rs:108-128 | the first `n` frames hold as many reserved frames as trailing positions among them |
| `EndpointProperties.ReservedFrameCountExact` | src/endpoint.rs:109-126 | an accepted batch holds exactly `reserved_count` reserved frames |
| `EndpointProperties.RarityIndexInBounds` | src/endpoint.rs:94-117 | when every sampled index is an index of the weight vector `RarityWeights`, every index the batch looks up in the rarity list is in bounds, the omitted reserved rarity 0 included |
| `EndpointProperties.FrameRarities` | src/endpoint.rs:111-127 | a reserved frame's rarity index is at least the reserved rarity and is the sampled one when that is already high enough; an unreserved frame's is the sampled one; each frame carries that rarity's label and one of its items |
| `EndpointProperties.ReservationGuarantee` | src/endpoint.rs:109-127 | with at least one reserved frame, the last frame is reserved and holds an item of a rarity at or above the reserved rarity |
| `EndpointProperties.ApiIsUnreservedFancy` | src/endpoint.rs:49-58 | a plain batch of `count` has the same URLs, in the same order from the same draws, as the `GET /fancy` batch of `count` with reservations omitted, none of whose frames is reserved |

## Left out

- HTTP: the server, routing, status codes, headers and response building are
  reduced to `Reply` (`Ok` or `BadRequest` with an `ErrorResponse`) and to
  the `Found` record for `GET /`.
- Query-string parsing and JSON serialisation are library calls. `api` and
  `fancy` each first parse their query with `request.query()?`; an unparsable
  query ends the handler with a 400 error before any check or draw, and that
  path is not modelled. Serialising these records cannot fail, so the `?` on
  `serde_json::to_value` is not modelled either.
- Startup: `main`, TOML configuration loading, logging and the listening
  socket are I/O (src/main.rs).
- The weighted sampler (`WeightedAliasIndex`) is a foreign library. Its
  construction, its refusal of an empty, all-zero or oversized weight vector
  at startup, and its sampling procedure are not modelled. Its outcome is the
  injected `tier`, assumed to be an index of the weight vector.
- The uniform item pick (`choose`) is likewise an injected `item`, assumed to
  be an index of the chosen rarity's items. This also stands for the
  non-empty item list that the `.expect(...)` calls demand; their panics are
  not modelled.
- Probabilities: that tier `i` comes up with probability `weight[i] / sum`,
  that a zero-weight tier never comes up, and that items are equally likely
  are statements about distributions, not about single runs.
- The thread-local generator and the shared `Arc<State>` are runtime
  plumbing; the lootbox is passed as an immutable value.
- Integer widths: counts and indices are `usize` in the service and
  unbounded here. The only arithmetic is `count - i` with `i < count`, which
  cannot underflow. Allocation failure of `Vec::with_capacity(count)` for a
  huge `count` is not modelled.
- Catalog validation (no rarity groups, a group without items, all weights
  zero) does not exist in the handlers or in src/data.rs, so none is
  modelled. The service's only guard is the
  sampler's construction at startup, which is left out above.
