# PokeClient view model in Dafny

This project models `MainViewModel`, the pagination and selection controller of
the PokeClient Android app. It also models the detail records that the catalog
API returns.

The view model holds the creatures loaded so far as an ordered list of
`(name, PokemonDetail)` pairs. It has three operations:

- `loadPokemonList` appends the next page of 30 entries. When the cursor passes
  the catalog size of 1302, the cursor wraps to 0 and the end flag is set.
- `loadRandomPokemonList` draws a random anchor and replaces the list with the
  page that starts there.
- `findStrongestPokemon` scores every entry by the ticked stats (attack,
  defense, hp). It selects the first entry with the highest score and moves it
  to the front of the list.

Files:

- `pokemon_entities.dfy`: the records (`PokemonDetail`, `Stat`, `StatName`, …) as datatypes.
- `kotlin_int.dfy`: Kotlin `Int` addition, with its 32-bit wrap-around written out.
- `strongest.dfy`: the score accumulation, Kotlin's `maxByOrNull`, and the
  `remove` / `add(0, …)` promotion, with lemmas about them.
- `main_view_model.dfy`: the class `MainViewModel`, with its fields, constants and operations.
- `scenarios.dfy`: client code that drives the class the way the screen does.

Each load launches a coroutine in the source. Here each load is split into two methods:

- A start method (`LoadPokemonList`, `LoadRandomPokemonList`). It checks the
  guards, sets `isLoading`, and records the pending fetch in the field
  `inFlight`, together with the offset it requests.
- A completion method (`CompleteLoadPokemonList`, `CompleteLoadRandomPokemonList`).
  It receives the result of the whole batch of requests as a `FetchOutcome`:
  either `Fetched(batch)`, with the details in list order, or `IOFailure`, an
  I/O failure of the list-page request.

The random anchor is a parameter, bounded by `0 <= anchor <= MaxOffset` (1272).
The object invariant `Valid()` states six things:

- The cursor stays in `[0, 1302]`.
- The anchor stays in `[0, 1272]`.
- `isLoading` holds exactly when a fetch is pending.
- A pending page fetch requested the page at `currentOffset`.
- A pending random fetch requested an anchor in `[0, 1272]`, and `errorMessage` is null while it is pending.
- A non-null strongest entry is always the head of the list.

Every method preserves `Valid()`.

The model follows the code as written. Points worth knowing:

- Only `java.io.IOException` is caught (MainViewModel.kt:82, 117). Other
  failures of a fetch are not handled by the code, so they are not modelled
  (see below).
- `findStrongestPokemon` takes the list to score as a parameter. It removes the
  selected entry's first equal element from the view model's own list. The
  general method states this for any `list`. The permutation and stable-order
  results are proved for the screen's call, which passes the view model's own
  list (MainActivity.kt:142-147).
- A successful random load sets `currentOffset` from the field
  `initialRandomOffset` as it is when the fetch completes. That value is not
  necessarily the anchor the page was fetched from. A second
  `loadRandomPokemonList` call while the first fetch is pending changes the
  field without starting a fetch. The cursor then ends up one page past the
  second anchor, while the list holds the page at the first anchor.
  `Scenarios.SecondRandomTapScenario` shows this, and the class keeps the
  behaviour as written.
- After the wrap, sequential paging requests pages that the random page
  already covered, so names can repeat in the list (see "## Left out").
- A successful random load does not clear `errorMessage` itself. The start
  step has already cleared it, and `Valid()` shows that it stays cleared while
  a random fetch is pending.

## Model

| member | source | states |
|---|---|---|
| `KotlinInt.Wrap` | app/src/main/java/com/example/pokeclient/ui/MainViewModel.kt:139-141 | Kotlin `Int` truncation: the result is a 32-bit value, equals its argument when that already fits, and differs from it by a multiple of 2^32 |
| `KotlinInt.Add` | app/src/main/java/com/example/pokeclient/ui/MainViewModel.kt:139-141 | `score += baseStat` always yields a 32-bit `Int` |
| `KotlinInt.WrapCongruent` | app/src/main/java/com/example/pokeclient/ui/MainViewModel.kt:139-141 | two integers that differ by a multiple of 2^32 truncate to the same `Int` |
| `KotlinInt.WrapAddLeft` | app/src/main/java/com/example/pokeclient/ui/MainViewModel.kt:136-144 | truncating the running score after each addition gives the same result as truncating the final sum |
| `Strongest.MissingStatAddsNothing` | app/src/main/java/com/example/pokeclient/ui/MainViewModel.kt:137-143 | a stat that is absent from the list contributes 0 to the score |
| `Strongest.ScoreIsWrappedTotal` | app/src/main/java/com/example/pokeclient/ui/MainViewModel.kt:136-144 | the accumulated score is the sum of the base values of the ticked stats ("attack", "defense", "hp"; duplicates included, others ignored), truncated to `Int` |
| `Strongest.ScoreWithoutOverflow` | app/src/main/java/com/example/pokeclient/ui/MainViewModel.kt:136-144 | when that sum fits in an `Int`, the score is exactly the sum |
| `Strongest.ComputeScore` | app/src/main/java/com/example/pokeclient/ui/MainViewModel.kt:136-144 | the `forEach` loop returns the score of the entry's stats, which is the truncated weighted total |
| `Strongest.FirstMaxIndex` | app/src/main/java/com/example/pokeclient/ui/MainViewModel.kt:135-145 | in a non-empty list, the chosen position scores at least as much as every entry, and every earlier entry scores strictly less (first maximum wins ties) |
| `Strongest.FirstMaxUnique` | app/src/main/java/com/example/pokeclient/ui/MainViewModel.kt:135-145 | a non-empty list has exactly one first maximum, so the selection is determined |
| `Strongest.MaxByOrNull` | app/src/main/java/com/example/pokeclient/ui/MainViewModel.kt:135-145 | `maxByOrNull` returns null exactly on an empty list, and otherwise the first entry with the highest score |
| `Strongest.RemoveFirst` | app/src/main/java/com/example/pokeclient/ui/MainViewModel.kt:149 | `remove(x)` shortens the list by one when `x` occurs in it and otherwise leaves the list as it was |
| `Strongest.RemoveFirstMultiset` | app/src/main/java/com/example/pokeclient/ui/MainViewModel.kt:149 | `remove(x)` takes away exactly one copy of `x` and nothing else |
| `Strongest.RemoveFirstAt` | app/src/main/java/com/example/pokeclient/ui/MainViewModel.kt:149 | if no earlier element equals the one at `k`, removing it removes exactly position `k` |
| `Strongest.Promote` | app/src/main/java/com/example/pokeclient/ui/MainViewModel.kt:149-150 | after `remove` + `add(0, x)`, the entry `x` is at index 0 |
| `Strongest.MoveToFrontIsPermutation` | app/src/main/java/com/example/pokeclient/ui/MainViewModel.kt:149-150 | moving position `k` to the front gives a permutation with that entry first and every other entry in its old relative order |
| `Strongest.PromoteFirstMax` | app/src/main/java/com/example/pokeclient/ui/MainViewModel.kt:147-150 | when the list scored is the list itself, promoting its first maximum is exactly moving that position to the front, so the result is a permutation with the others in their old order |
| `Strongest.SelectAgainPicksFront` | app/src/main/java/com/example/pokeclient/ui/MainViewModel.kt:135-145 | after the first maximum has been moved to the front, a second selection with the same criteria picks index 0, which is the same entry |
| `Strongest.PromoteFront` | app/src/main/java/com/example/pokeclient/ui/MainViewModel.kt:149-150 | promoting the entry already at index 0 leaves the list unchanged |
| `PokemonViewModel.MainViewModel.constructor` | app/src/main/java/com/example/pokeclient/ui/MainViewModel.kt:24-53 | initial state: empty list, cursor 0, no error or strongest entry; `init` starts the first page fetch at offset 0 and raises `firstLoading` |
| `PokemonViewModel.MainViewModel.LoadPokemonList` | app/src/main/java/com/example/pokeclient/ui/MainViewModel.kt:55-63 | a no-op while at the end of the catalog (`hasReachedTheEnd && currentOffset >= initialRandomOffset`) or while busy; otherwise becomes busy and requests the page at `currentOffset`; nothing else changes |
| `PokemonViewModel.MainViewModel.CompleteLoadPokemonList` | app/src/main/java/com/example/pokeclient/ui/MainViewModel.kt:62-89 | success appends the batch in order, clears the error and the strongest entry, and advances the cursor by 30, wrapping to 0 and setting the end flag once it passes 1302; an I/O failure changes only the error ("Check network connection!"); never busy afterwards; the cursor stays in `[0, 1302]` |
| `PokemonViewModel.MainViewModel.LoadRandomPokemonList` | app/src/main/java/com/example/pokeclient/ui/MainViewModel.kt:92-103 | always clears the end flag and the error and records the anchor in `[0, 1272]`; starts a fetch of the page at the anchor only when none is pending |
| `PokemonViewModel.MainViewModel.CompleteLoadRandomPokemonList` | app/src/main/java/com/example/pokeclient/ui/MainViewModel.kt:101-124 | success replaces the list by the batch, clears the strongest entry, and sets the cursor to the anchor field plus 30; an I/O failure changes only the error; the list and cursor are unchanged on failure; never busy afterwards |
| `PokemonViewModel.MainViewModel.FindStrongestPokemon` | app/src/main/java/com/example/pokeclient/ui/MainViewModel.kt:127-152 | a no-op with no criterion or an empty list; otherwise the first highest-scoring entry becomes the strongest and is moved to the front; on the view model's own list, the result is a permutation with the others in their old order |
| `Scenarios.SelectTwice` | app/src/main/java/com/example/pokeclient/ui/MainViewModel.kt:127-152 | selecting twice with the same criteria leaves the same state as selecting once: the first maximum at the front, and it is the strongest entry |

## Left out

- The HTTP layer (`PokeApiService.kt`) and the repository (`PokemonRepository.kt`) are not part of this model. Each fetch is represented by its outcome, which the completion step takes as a parameter. The repository methods the view model calls (`getRemotePokemonList`, `getRemotePokemonDetail`) are not defined in `PokemonRepository.kt`, so they are treated as an unknown oracle.
- The outcome is not tied to the offset requested. Nothing in the view model relies on which entries, or how many, the catalog returns for a given offset.
- Coroutines (`viewModelScope.launch`, `async`/`awaitAll`) are modelled as one atomic batch per load: it either commits completely or its list-page request fails with an I/O error. Cancellation of the scope is not modelled.
- `IOFailure` models only a failure of the list-page request (MainViewModel.kt:63, 103), a plain suspending call inside the `try`. A detail request runs in an `async` child (MainViewModel.kt:65-70, 105-110). Under structured concurrency its exception cancels the launched coroutine and goes to the scope's uncaught-exception handling, not to the `catch` at MainViewModel.kt:82 and 117. The error message is then most likely never set, and the app may crash. That path is not modelled.
- Failures other than `IOException` (for example HTTP errors from the API) are not caught by the code; what they do to the app is not modelled.
- The randomness of `(0..maxOffset).random()` is modelled as a parameter `anchor` with `0 <= anchor <= MaxOffset`. Its distribution is not modelled.
- Logging (`Log.e`) and Hilt dependency injection are left out.
- The screen (`MainActivity.kt`) is left out: layout, menus, the bottom sheet, image loading, the 15-item look-ahead that calls `loadPokemonList`, and the display of weight and height.
- Names in the list are not unique, and the model states no uniqueness. The view model itself asks again for offsets it has already loaded. After a random page at an anchor that is not a multiple of 30, sequential paging wraps to 0 at the end of the catalog. It then keeps going while the cursor is below the anchor (MainViewModel.kt:56, 77-79). Its last page overlaps the random page: for anchor 100, the page at 90 repeats the entries 100..119. `Scenarios.WrapRefetchesRandomPageScenario` shows this sequence. The remote catalog is not modelled, so which names repeat is not stated.
- The model keeps `pokemonList` as a sequence value. Compose's snapshot observation of that list is not modelled.
