# Storefront client core in Dafny

A Dafny model of the client-side logic of a small browser storefront. It covers four parts:

- **TTL cache** (`ttl_cache.dfy`, module `TtlCache`). A process-wide table from string keys to entries. Each entry holds the value and its absolute expiry time, `now + ttl`; the source calls this field `timestamp`. A read after the expiry evicts the entry. The class `Cache` holds the table as a `map`. `CacheRegistry` plays the static `instance` field behind `getInstance`.
- **Retry executor** (`retry.dfy`, module `Retry`). `withRetry` calls an operation until it succeeds, until it throws an error the policy will not retry, or until the attempts run out. Between attempts it waits for a delay that doubles, gains jitter and is capped. `WithRetry` fills in the defaults and `AttemptLoop` is the loop, as a method. Together they are proved equal to `Run`, a recursive specification of the same loop, and the lemmas describe `Run`.
- **Cart synchroniser** (`cart_context.dfy`, module `CartContext`). One browsing context's ordered list of cart items. After every change the list is written to shared durable storage, and the list is replaced when an incoming notification brings a new one. `Storage` is the per-origin storage shared by contexts. `Cart` holds one context's list, and its mutating methods call the pure list functions `AddItem`, `RemoveId` and `QuantityUpdate` (through `SetQuantityOf`). `Cart.GetTotal` is the context's `getTotal` (src/context/CartContext.tsx:100-102): it applies `Total` to the current list. The navigation bar's badge count is the free function `ItemCount` applied to a list. The properties of both are lemmas about `Total` and `ItemCount`.
- **Initial language** (`i18n.dfy`, module `I18n`). The start-up language is chosen from the saved language, the browser's primary language subtag and a fixed list of supported languages. The document direction follows from the chosen language.

`wrappers.dfy` defines `Option`. Here it stands for JavaScript `null` and `undefined` and for fields left out of an options object.

Inputs that the source reads from the environment are parameters here:

- The clock (`Date.now()`) is `now`, in milliseconds.
- `Math.random() * 1000` is `jitter(k)`, the value drawn after the k-th failed attempt.
- The wrapped operation is `op(k)`, what its k-th call resolves to or throws.
- The saved language and `navigator.language` are arguments.
- Storage is the `Storage.cartItems` field. Incoming `storage` and `cart_sync` events are the `OnStorageEvent` and `OnSyncEvent` methods.

Retry delays are `real`. Prices are integer cents.

Two behaviours of the code are easy to miss; the model keeps both.

- The default retry test matches any message containing "Failed to fetch" (src/utils/retry.ts:14-15). The comment at src/utils/retry.ts:13 mentions only network errors and 5xx errors. Each catalog call throws an `Error` whose message begins "Failed to fetch" for every non-2xx status, 4xx included (src/utils/api.ts:9, :22, :35, :48). Such a failure would be classified as retryable if the call went through `withRetry`; the catalog client does not use `withRetry`. `StatusFailureMessageIsRetried` states the classification for all four messages.
- `options.ttl || defaultTTL` (src/utils/cache.ts:27) treats a ttl of 0 as falsy, so a ttl of 0 means five minutes.

## Model

| member | source | states |
|---|---|---|
| TtlCache.EffectiveTtl | src/utils/cache.ts:27 | an absent ttl or a ttl of 0 gives the 300000 ms default; any other ttl, negatives included, is kept |
| TtlCache.Stored | src/utils/cache.ts:26-32 | storing adds the key with expiry `now + ttl` and keeps every other key's entry |
| TtlCache.Lookup | src/utils/cache.ts:34-44 | a read hits exactly when the key is present and `now` is not after its expiry, and then returns the stored data |
| TtlCache.AfterLookup | src/utils/cache.ts:38-41 | a read removes the key exactly when it finds it expired, and otherwise leaves the table as it was |
| TtlCache.Removed | src/utils/cache.ts:50-52 | removal deletes only the given key |
| TtlCache.Cache.constructor | src/utils/cache.ts:15-17 | a new cache is empty |
| TtlCache.Cache.Set | src/utils/cache.ts:26-32 | the table becomes `Stored` of the old table |
| TtlCache.Cache.Get | src/utils/cache.ts:34-44 | returns `Lookup` of the old table and leaves `AfterLookup` of it (lazy eviction) |
| TtlCache.Cache.Clear | src/utils/cache.ts:46-48 | the table becomes empty |
| TtlCache.Cache.Remove | src/utils/cache.ts:50-52 | the table becomes `Removed` of the old table |
| TtlCache.CacheRegistry.GetInstance | src/utils/cache.ts:19-24 | creates a fresh empty cache on the first call and returns the stored one on every later call |
| TtlCache.SharedInstance | src/utils/cache.ts:19-24 | two calls of `getInstance` return the same object |
| TtlCache.HitWithinTtl | src/utils/cache.ts:26-43 | after a set at time t, a read at any time up to and including t + ttl returns the value and evicts nothing |
| TtlCache.MissAfterExpiry | src/utils/cache.ts:38-41 | a read strictly after the expiry returns null and removes the key |
| TtlCache.MissWhenAbsent | src/utils/cache.ts:35-36 | a read of an absent key returns null and leaves the table unchanged |
| TtlCache.NeverStale | src/utils/cache.ts:38-43 | a hit always carries an entry whose expiry has not passed |
| TtlCache.LookupFramesOtherKeys | src/utils/cache.ts:34-44 | reading one key never changes what another key reads |
| TtlCache.SetOverwrites | src/utils/cache.ts:28-31 | a set leaves reads of every other key unchanged, and repeating the same set changes nothing more |
| TtlCache.ZeroTtlMeansDefault | src/utils/cache.ts:13-27 | a ttl of 0 stores the same entry as no ttl, with expiry now + 300000 |
| TtlCache.RemoveMisses | src/utils/cache.ts:50-52 | after remove the key misses at every time, other keys read as before, and removing an absent key is a no-op |
| TtlCache.SetThenGet | src/utils/cache.ts:26-44 | on one cache object, a set followed by a read at the expiry instant hits, and a read one millisecond later misses and evicts |
| TtlCache.ClearForgetsAll | src/utils/cache.ts:46-48 | after clear, a key that was set misses and the table is empty |
| Retry.ResolvePolicy | src/utils/retry.ts:8-28 | each option the caller supplies overrides its default; the defaults are 3 attempts, 1000 ms, 5000 ms and the network-failure test |
| Retry.AsError | src/utils/retry.ts:37 | an `Error` is kept as it is; any other thrown value becomes a plain `Error` whose message is its string form |
| Retry.NextDelay | src/utils/retry.ts:48 | the next delay is at most maxDelay; with jitter ≥ 0 it is at least min(2·delay, maxDelay); with jitter < 1000 it is below 2·delay + 1000 |
| Retry.WithRetry | src/utils/retry.ts:19-53 | the attempt loop settles, calls and waits exactly as the specification `Run` does |
| Retry.AttemptLoop | src/utils/retry.ts:30-52 | under a resolved policy the loop settles, calls and waits exactly as `RunFrom` from attempt 1 with the initial delay and no previous error |
| Retry.RunFromStep | src/utils/retry.ts:33-48 | one attempt: a success settles with its value after one call; a failure that is not retried, or is on the last attempt, throws the wrapped error after one call; otherwise one call and one wait of the current delay precede the run from the next attempt with the next delay |
| Retry.RunFromShape | src/utils/retry.ts:33-49 | from any attempt: between 1 call and the remaining attempts; one wait fewer than calls; every call but the last failed retryably; the last call decides the result; waits follow the backoff recurrence |
| Retry.RunShape | src/utils/retry.ts:30-49 | with maxAttempts ≥ 1: 1 ≤ calls ≤ maxAttempts, waits = calls − 1, earlier calls all failed retryably, the last call decides, the first wait is initialDelay |
| Retry.NoAttempts | src/utils/retry.ts:30-33 | with maxAttempts < 1 the operation is never called, nothing is waited and the promise rejects with null |
| Retry.CallsBounded | src/utils/retry.ts:33 | the operation is called at most maxAttempts times (never if maxAttempts < 1) |
| Retry.FirstSuccessReturned | src/utils/retry.ts:33-35 | if calls 1..k−1 fail retryably and call k succeeds, its value is returned after exactly k calls and k − 1 waits |
| Retry.NonRetryableStops | src/utils/retry.ts:37-41 | if call k fails with an error the policy does not retry, that error is thrown at once, after k calls and k − 1 waits |
| Retry.AllAttemptsFail | src/utils/retry.ts:33-41 | if every allowed call fails retryably, exactly maxAttempts calls are made and the last error is thrown |
| Retry.DelayBounds | src/utils/retry.ts:31-48 | the first wait is initialDelay, uncapped; with jitter in [0, 1000) each later wait lies between min(2·previous, maxDelay) and maxDelay, and below 2·previous + 1000 |
| Retry.ThrownValueWrapped | src/utils/retry.ts:37-41 | a thrown non-`Error` value is rethrown as a plain `Error` with its text, after one call, when the default test rejects it |
| Retry.DefaultClassification | src/utils/retry.ts:12-15 | under the defaults a `TypeError` is retried, a message containing "Failed to fetch" is retried, and a plain `Error` without it is not |
| Retry.StatusFailureMessageIsRetried | src/utils/retry.ts:12-15 | the default test would retry each of the catalog client's four status-failure errors ("Failed to fetch products", "… categories", "… product", "… products by category") |
| CartContext.RemoveId | src/context/CartContext.tsx:78 | the filtered list is no longer than the input and holds no item with the id |
| CartContext.Storage.constructor | src/context/CartContext.tsx:21 | the storage holds the given value under the cart key |
| CartContext.Cart.constructor | src/context/CartContext.tsx:25-28 | hydration: the stored list if one is stored, else the empty cart |
| CartContext.Cart.Sync | src/context/CartContext.tsx:54-58 | storage then holds the new list, and the `cart_sync` event delivered to this context sets the same list |
| CartContext.Cart.AddToCart | src/context/CartContext.tsx:60-74 | the list becomes `AddItem` of the old one and storage holds it |
| CartContext.Cart.RemoveFromCart | src/context/CartContext.tsx:76-82 | the list becomes `RemoveId` of the old one and storage holds it |
| CartContext.Cart.UpdateQuantity | src/context/CartContext.tsx:84-93 | when `QuantityUpdate` rejects the call (a quantity below 1) neither the list nor storage changes; otherwise the list becomes its result, `SetQuantityOf` of the old one, and storage holds it (also when the id is absent) |
| CartContext.Cart.ClearCart | src/context/CartContext.tsx:95-98 | the list and the stored copy are both empty |
| CartContext.Cart.OnStorageEvent | src/context/CartContext.tsx:32-36 | only a non-null value under `cart_items` replaces the list; anything else leaves it |
| CartContext.Cart.OnSyncEvent | src/context/CartContext.tsx:38-42 | a detail carrying a list replaces the list; otherwise the list is kept |
| CartContext.PropagateAdd | src/context/CartContext.tsx:32-36 | after `addToCart` in context A, the storage notification makes context B's list equal to A's new list, and both match storage |
| CartContext.PropagateRemove | src/context/CartContext.tsx:32-36 | after `removeFromCart` in context A, the storage notification makes context B's list equal to A's new list, and both match storage |
| CartContext.PropagateUpdate | src/context/CartContext.tsx:32-36 | after an accepted `updateQuantity` in context A, B's list equals A's new list and both match storage; a rejected one changes neither context nor storage |
| CartContext.PropagateClear | src/context/CartContext.tsx:32-36 | after `clearCart` in context A, both contexts hold the empty list and storage holds it too |
| CartContext.AddExisting | src/context/CartContext.tsx:62-68 | adding a product already present keeps the length, adds one to the quantity of each item with that id, and leaves every other item as it was |
| CartContext.AddNew | src/context/CartContext.tsx:69 | adding an absent product appends `{id, quantity 1, product}` after the existing items |
| CartContext.AddTwice | src/context/CartContext.tsx:62-69 | adding the same new product twice gives one item of quantity 2 |
| CartContext.RemoveKeeps | src/context/CartContext.tsx:78 | an item is in the result exactly when it was in the list and has a different id |
| CartContext.RemoveAbsent | src/context/CartContext.tsx:78 | removing an absent id leaves the list unchanged |
| CartContext.RemoveDistributes | src/context/CartContext.tsx:78 | removal distributes over concatenation, so the remaining items keep their order |
| CartContext.IdOnlyAt | src/context/CartContext.tsx:62 | with distinct ids, item k's id occurs neither before nor after item k |
| CartContext.RemoveAt | src/context/CartContext.tsx:78 | with distinct ids, removing item k's id gives the list without item k, the rest in order |
| CartContext.UpdateSetsQuantity | src/context/CartContext.tsx:86-89 | with quantity ≥ 1 only the matching items change, and only their quantity; the length is kept; an absent id leaves the list as it was |
| CartContext.UpdateRejectsBelowOne | src/context/CartContext.tsx:85 | a quantity below 1 is rejected |
| CartContext.AddKeepsWellFormed | src/context/CartContext.tsx:62-69 | adding keeps ids distinct and quantities at least 1 |
| CartContext.RemoveKeepsWellFormed | src/context/CartContext.tsx:78 | removing keeps ids distinct and quantities at least 1 |
| CartContext.UpdateKeepsWellFormed | src/context/CartContext.tsx:85-89 | an accepted quantity update keeps ids distinct and quantities at least 1 |
| CartContext.ClearIsWellFormed | src/context/CartContext.tsx:96 | the cleared cart is well formed |
| CartContext.IncrementAt | src/context/CartContext.tsx:64-68 | with distinct ids, incrementing item k's id changes item k alone |
| CartContext.LineTotalOneMore | src/context/CartContext.tsx:101 | the arithmetic step `OneMoreAt` uses: one more unit of a line adds one unit price to that line's amount |
| CartContext.TotalAppend | src/context/CartContext.tsx:101 | the total of a concatenation is the sum of the totals |
| CartContext.ItemCountAppend | src/components/Navbar.tsx:9 | the item count of a concatenation is the sum of the counts |
| CartContext.TotalReplaceAt | src/context/CartContext.tsx:101 | replacing one item changes the total by the difference of the line totals, and the count by the difference of the quantities |
| CartContext.EmptyTotal | src/context/CartContext.tsx:101 | an empty cart totals 0 and counts 0 items |
| CartContext.AddExistingAt | src/context/CartContext.tsx:62-68 | with distinct ids, adding a product whose id is item k's gives the list with only item k's quantity raised by 1 |
| CartContext.OneMoreAt | src/context/CartContext.tsx:101 | one more unit of item k raises the total by its unit price and the count by 1 |
| CartContext.AddExistingChangesTotals | src/context/CartContext.tsx:62-68 | adding a product already present raises the total by the price in the snapshot already in the cart, and the count by 1 |
| CartContext.AddChangesTotals | src/context/CartContext.tsx:60-74 | adding any product raises the count by 1; the total rises by the new product's price, or by the price of the snapshot already in the cart |
| CartContext.RemoveChangesTotals | src/context/CartContext.tsx:76-82 | removing item k takes its line total off the total and its quantity off the count |
| CartContext.ItemCountAtLeastLength | src/components/Navbar.tsx:9 | with quantities at least 1, the badge count is at least the number of items |
| I18n.PrimarySubtag | src/i18n/config.ts:19 | the result is a prefix of the tag with no '-', and is the whole tag or stops just before its first '-' |
| I18n.PrimarySubtagOfRegionTag | src/i18n/config.ts:19 | a tag `lang-region` with no '-' in lang gives lang |
| I18n.InitialLanguage | src/i18n/config.ts:11-21 | the chosen language is always one of the supported languages |
| I18n.SavedLanguageWins | src/i18n/config.ts:15-17 | a supported saved language is chosen, whatever the browser reports |
| I18n.BrowserLanguageOtherwise | src/i18n/config.ts:19-20 | without a usable saved language, the browser's primary subtag is chosen when supported, else 'en' |
| I18n.InitialLanguageCandidates | src/i18n/config.ts:14-21 | the result is the saved language, the browser subtag or 'en' |
| I18n.SavingTheChoiceIsStable | src/i18n/config.ts:14-21 | once the choice is saved, the next start chooses it again whatever the browser reports |
| I18n.Direction | src/i18n/config.ts:60-61 | the direction is 'rtl' exactly for 'ar' and 'ltr' otherwise |

## Left out

- Cache values are of one type `V` per `Cache<V>`. The source's single instance holds `CacheItem<any>` (src/utils/cache.ts:12) and mixes value types in one table, with `get<T>` casting per call; that mixing and the unchecked cast are not modelled. The source's `Map` also hands out references, not copies.
- TtlCache.EffectiveTtl: the ttl is an integer. A NaN ttl (which `||` also replaces by the default), and fractional or infinite ttls (which are kept), are not modelled.
- The cache's `Date.now()` is the parameter `now`, an integer. `Math.random()` is the jitter function. `setTimeout` is recorded as a list of waits and not performed.
- `Retry.WithRetry`: `async`/`await` and the promise machinery are not modelled. The method returns how the promise settles.
- `Retry.WithRetry`: `maxAttempts` is an integer. A fractional `maxAttempts` (possible in JavaScript, where `attempt === maxAttempts` then never holds) is not modelled. An option key that is present but set to `undefined` is treated like an absent key. In the source such a key overrides the default with `undefined`.
- `Retry` errors: any exception class other than `TypeError` and plain `Error` is `OtherKind(name)`. Subclasses of `TypeError` are not modelled. `String(value)` of a thrown non-`Error` value is given as its text.
- Delays are exact `real`s, not IEEE doubles.
- JSON serialisation and parsing in the cart, `localStorage` itself, and `window.addEventListener`/`dispatchEvent` are not modelled. Storage is the `Storage.cartItems` field, and incoming events are direct method calls. The `cart_sync` event that `syncCart` dispatches reaches only the same document, so `Cart.Sync` delivers it to its own context.
- `CartContext.Cart.constructor` and the two event handlers accept whatever list they are given. Like the source, they do not check distinct ids or positive quantities. The invariant lemmas cover the four mutations only.
- An empty-string storage value, which `JSON.stringify` never produces, is not distinguished from `null`.
- Prices are integer cents, not floating-point numbers. `toFixed(2)` formatting is view code.
- Quantities are integers. A fractional quantity passed to `updateQuantity` is not modelled.
- Cross-tab races and last-writer-wins timing are not modelled. Every call here runs to completion before the next.
- React's state updater functions, StrictMode double invocation and re-rendering are not modelled. `getTotal` reads the current list.
- The i18next initialisation, the language detector, `console.log` and the DOM writes are library calls. Only the selection and direction rules are modelled.
- The catalog client (`src/utils/api.ts`) does not use the cache or the retry executor, and no search filter exists in the source. Neither is part of this model. The service workers, React components, build configuration and icon script are I/O or view code.
