# coord-logger-bot in Dafny

coord-logger-bot receives coordinate pings on a `/webhook` endpoint and logs them. A ping's embed description reads like `Coords: X: -187677, Y: -47, Z: 159415`. The bot keeps the logged points in one in-memory array, `coordinates`, and answers Discord slash commands about it: `coords`, `search`, `stats`, `delete`, `clearall` and `export`. A health probe on `GET /` reports how many points are logged.

This project models that array and every handler that reads or changes it. Discord, Express and the JSON file are left out.

- `wrappers.dfy`, module `Wrappers`: the `Option` type.
- `decimal.dfy`, module `Decimal`:
  - how `parseInt` reads a run of digits;
  - how a template literal spells an integer;
  - that reading back the spelling gives the number.
- `extractor.dfy`, module `Extractor`: the case-insensitive pattern `X:\s*(-?\d+).*Y:\s*(-?\d+).*Z:\s*(-?\d+)`.
  - `IsMatch` says when three label positions form a match. `\s` may cross a line break; the `.*` gaps may not.
  - `Locate` computes the match that `String.prototype.match` reports: the leftmost X; for it, the last Y that can still complete; for that Y, the last Z.
  - `Extract` returns the three `parseInt` values, or `None` when `match` returns null.
- `ping.dfy`, module `Ping`:
  - the description layout of the pings;
  - the round trip from three integers to a description and back through the extractor.
- `store.dfy`, module `Store`:
  - the `Coord` record;
  - the id rule: `Math.max` of the ids plus one, or 1 when the store is empty;
  - delete-first-by-id (`findIndex` + `splice`);
  - the `/webhook` handler as the function `Webhook`;
  - class `CoordStore`, whose methods `Ingest`, `Delete` and `ClearAll` change its `coords` field in place.
- `ranking.dfy`, module `Ranking`: the distance sort of `/search`.
  - The sort is a stable insertion sort on the squared XZ distance.
  - Lemmas prove that it is sorted, a permutation of its input, and stable.
- `queries.dfy`, module `Queries`: the read-only commands `coords`, `search`, `stats` and `export`, the health probe, and lemmas relating them to the webhook.

The model keeps these behaviours of `index.js`:

- **Ids are reused.** A new id is one more than the largest id present, or 1 in an empty store. After `clearall` the next id is 1 again (`Store.WebhookAfterClearAll`). Deleting the record with the largest id m, while m - 1 is still present, makes m the next id again (`Store.DeleteMaxReusesId`).
- **`/export` lists the last 50 records oldest first.** `slice(-50)` keeps the array order. The only truncation is by count (`Queries.ExportSample`).
- **`/coords` does not clamp `count`.** The only default is `count || 10`; the 1 to 25 range is an option setting of the slash command. The model follows the JavaScript `slice(-count)` for every integer.
- **The search box is a per-axis `<=` test.** A record at x = 1010 lies outside radius 1000 around the origin (`Queries.SearchSample`).

## Model

| member | source | states |
|---|---|---|
| Decimal.IntToString | index.js:201 | how `${n}` spells an integer: a minus sign exactly for negatives, then decimal digits |
| Decimal.NatToStringValue | index.js:247-249 | parseInt of the decimal spelling of a natural number gives that number back |
| Extractor.NumberAt | index.js:240 | the group `-?\d+` exists exactly when a digit, or a minus sign then a digit, stands at p. It ends after the whole digit run, no line break is inside it, and its value is the parseInt value of those digits, negated after a minus sign |
| Extractor.IsMatch | index.js:240 | the three label positions of one way the pattern matches. Each label is followed by optional whitespace and a number, no line break lies between a number and the next label, and the labels stand in the order X, Y, Z |
| Extractor.Locate | index.js:240 | the label positions found form a match. A match exists exactly when one is found. Its X is the leftmost of all matches; for that X its Y is the last; for that X and Y its Z is the last |
| Extractor.Extract | index.js:240-249 | a triple is returned exactly when some decomposition of the description matches the pattern, and the triple is the parseInt values of one such decomposition |
| Ping.ExtractDescription | index.js:239-249 | for every integer triple, extraction from `Coords: X: x, Y: y, Z: z` gives back exactly (x, y, z) |
| Ping.ExtractSamplePing | index.js:239-240 | `Coords: X: -187677, Y: -47, Z: 159415` extracts to (-187677, -47, 159415) |
| Store.MaxId | index.js:252 | `Math.max` of the ids: no stored id exceeds it, and some record holds it |
| Store.NextId | index.js:252 | the new id exceeds every stored id; it is 1 in an empty store, and otherwise one more than an id present |
| Store.FindIndex | index.js:177 | -1 exactly when no record has the id; otherwise the first index holding it |
| Store.DeleteFirst | index.js:177-180 | an absent id leaves the store unchanged; a present one shortens it by exactly one |
| Store.DeleteFirstCutsFirst | index.js:177-180 | deletion cuts out exactly the first holder of the id, keeping the records before and after it in order |
| Store.DeleteFirstKeepsOthers | index.js:177-180 | the records of every other id are kept, in their order |
| Store.DeleteFirstCount | index.js:177-180 | deletion removes exactly one holder of the id when there is one |
| Store.DeleteFirstAt | index.js:177-180 | each remaining record is the old record at the same index before the cut, or one index later after it |
| Store.DeleteKeepsUniqueIds | index.js:177-180 | deletion keeps ids unique |
| Store.DeleteMaxReusesId | index.js:252 | with unique ids, when the largest id m and m - 1 are both present, deleting m makes the next id m again |
| Store.OrElse | index.js:236-237 | `s || fallback` on a string: a missing or empty string gives the fallback, and any other string is kept |
| Store.Status | index.js:231-289 | 200 exactly for a saved ping; 400 for missing or empty embeds or an unparseable description; 500 when the handler throws |
| Store.Webhook | index.js:229-285 | every rejection leaves the store unchanged. It answers "no embeds" exactly when `embeds` is missing or empty, 500 exactly when the first embed is null, and "cannot parse" exactly when extraction fails. A save appends exactly one record at the end, leaving earlier records unchanged. That record has the next id (`Store.NextId`: max + 1, or 1 when empty), the extracted triple, the raw description and the embed's timestamp or the current time, and the answer reports its id and triple |
| Store.WebhookAfterClearAll | index.js:252 | a ping saved into the empty store gets id 1 |
| Store.WebhookKeepsUniqueIds | index.js:252-256 | the webhook keeps ids unique |
| Store.CoordStore.constructor | index.js:33 | the store starts as the loaded array |
| Store.CoordStore.Ingest | index.js:225-291 | the answer and the new array are those of `Webhook` on the old array, whether or not forwarding to Discord fails |
| Store.CoordStore.Delete | index.js:175-185 | reports found exactly when the id was present, and the array becomes the old one with the first holder spliced out |
| Store.CoordStore.ClearAll | index.js:188-193 | reports the old length and leaves the array empty |
| Ranking.Dist2 | index.js:147 | the squared XZ distance: 0 exactly at the centre, and no smaller than the square of either axis difference |
| Ranking.WithDistance | index.js:145-147 | each record is paired with its squared XZ distance from the centre, in the same order |
| Ranking.SortedPairwise | index.js:148 | in a sorted sequence, every entry is no farther than any later entry |
| Ranking.InsertPermutes | index.js:148 | insertion adds the new element and loses nothing |
| Ranking.InsertSorted | index.js:148 | insertion keeps a sorted sequence sorted |
| Ranking.SortByDistance | index.js:148 | the result is sorted by distance and is a permutation of the input |
| Ranking.InsertStable | index.js:148 | the inserted element goes behind every element already at its distance |
| Ranking.SortStable | index.js:148 | the sort is stable: the entries at each distance keep their input order |
| Queries.SliceFrom | index.js:109 | `slice(start)` keeps a suffix whose length follows the JavaScript rule for negative and positive starts |
| Queries.Reverse | index.js:109 | the i-th element is the i-th from the end |
| Queries.CountOrDefault | index.js:108 | a missing or zero count becomes 10, and any other count is kept |
| Queries.Recent | index.js:108-109 | for a positive count n, the last min(n, length) records, newest first |
| Queries.RecentEmpty | index.js:109-114 | "no coordinates yet" is replied exactly when the store is empty |
| Queries.RadiusOrDefault | index.js:130 | a missing or zero radius becomes 1000, and any other radius is kept |
| Queries.InBox | index.js:133 | the per-axis box test `<=` radius: nothing lies in a box of negative radius, and the centre lies in every other box |
| Queries.Nearby | index.js:132-134 | the filter keeps every record in the box, as often as it is stored, and nothing else |
| Queries.Rank | index.js:145-148 | the boxed records paired with their distances, sorted by distance and a permutation of those pairs |
| Queries.NearbyEmpty | index.js:132-142 | nothing is found exactly when no stored record lies in the box |
| Queries.Search | index.js:127-156 | the radius is the defaulted one, and "none found" is answered exactly when no record lies in the box. Otherwise the total is the full filtered count, and at most 15 entries are shown: the first of the distance-sorted list |
| Queries.RankInBox | index.js:132-148 | every ranked entry is a stored record in the box, with its own distance |
| Queries.RankHasBoxed | index.js:132-148 | every stored record in the box is ranked, with its distance |
| Queries.SearchShowsBoxedSorted | index.js:132-156 | the shown entries are stored records in the box, each with its own distance, in non-decreasing distance order |
| Queries.NegativeRadiusFindsNothing | index.js:130-142 | a negative radius finds nothing |
| Queries.SearchSample | index.js:130-156 | of (10, 64, -20), (1010, 64, -20) and (5000, 0, 5000), radius 1000 around the origin finds only the first |
| Queries.StatsOf | index.js:161-170 | the total is the length; the last coordinate is the triple of the last record, absent exactly when the store is empty |
| Queries.ExportLine | index.js:201 | an exported line holds no line break |
| Queries.Join | index.js:201 | `join('\n')`: no lines give the empty string, and the text starts with the first line |
| Queries.SplitJoin | index.js:201 | splitting the joined lines on line breaks gives them back |
| Queries.ExportLines | index.js:201 | the lines of the last min(length, 50) records, oldest first |
| Queries.Export | index.js:195-206 | "nothing to export" is answered exactly when the store is empty. Otherwise the count is min(length, 50), the truncation note is added exactly when the store has more than 50 records, and the text splits into exactly the export lines |
| Queries.ExportSample | index.js:196-204 | three records export as `1, 2, 3`, `4, 5, 6`, `-7, 8, 9`, oldest first, without the truncation note |
| Queries.HealthOf | index.js:220-222 | the probe reports `online` and the number of stored records |
| Queries.StatsAfterWebhook | index.js:255-256 | after a save, stats counts one more record and shows the saved triple; a rejection changes nothing |
| Queries.RecentAfterWebhook | index.js:255-256 | a saved ping heads the recent listing with the reported id |
| Queries.HealthAfterWebhook | index.js:255-256 | the health count grows by one exactly for a saved ping |

## Left out

- Discord client: login, slash-command registration, embed and markdown formatting of replies, the relative-time rendering of timestamps, and fetching and sending to the channel. These are a foreign library and network I/O. The only part modelled is that a failed forward is caught and changes nothing (`sendFails` in `Ingest`).
- Express: JSON body parsing, routing and `listen`. These are transport. The answers are the `Response` datatype, and their status codes are given by `Status`.
- `loadCoords` and `saveCoords`: file I/O whose errors are swallowed. The store is modelled in memory, and the constructor takes the loaded array.
- Store.Webhook: considers only bodies whose `embeds` is absent, null or an array of objects or nulls, and descriptions that are absent or strings. Other JSON shapes can throw or be read differently, and those paths are not modelled. Examples are a string `embeds` and a numeric description.
- Store.NextId: does not model the `RangeError` that spreading a very large array into `Math.max` raises, nor ids that are not integers in a hand-edited JSON file.
- Decimal.NatToStringValue and Extractor.Extract: numbers are unbounded integers. `parseInt` precision loss on long digit runs is not modelled, and neither is the exponent notation of huge numbers in template literals. `parseInt('-0')` is `-0` in JavaScript and 0 here.
- Ranking.SortByDistance: orders by the exact squared integer distance. `Math.sqrt` and `Math.pow` are floating point and could tie two huge, distinct squared distances that the model keeps apart. The rounded distance shown in the reply (`Math.round`) is presentation only and not modelled.
- Queries.Join: its own contract states only the empty case and that the text starts with the first line. The full contents are pinned by `Queries.SplitJoin`, which reads the lines back.
- Timestamps: the current time `new Date().toISOString()` is the parameter `now`.
- Console logging, dotenv configuration and concurrency. Node runs each handler to completion on one thread.
