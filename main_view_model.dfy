/**
 * The pagination and selection controller of the client (`MainViewModel`).
 *
 * Each load of the source launches a coroutine; here it is split into a
 * start step (the guards, `isLoading := true`, which fetch is launched) and
 * a completion step that receives the outcome of the batch of requests at
 * once: either the list page and every detail arrived, the details in list
 * order, or the list-page request failed with an I/O error, which the
 * `catch` handles and nothing is committed. A failing detail request runs
 * in an `async` child coroutine; its exception cancels the launched
 * coroutine instead of reaching that `catch`, and is not modelled.
 */
module PokemonViewModel {

  import opened Wrappers
  import opened PokemonEntities
  import opened Strongest

  const Limit: int := 30
  const MaxPokemonCount: int := 1302
  /** The largest anchor a random page may start from. */
  const MaxOffset: int := MaxPokemonCount - Limit
  const NetworkError: string := "Check network connection!"

  /** The coroutine a load has launched and not yet finished, with the offset it requested. */
  datatype Fetch = NoFetch | PageFetch(offset: int) | RandomFetch(anchor: int)

  /**
   * What the batch of requests of one load delivers: all details, or an
   * I/O failure of the list-page request.
   */
  datatype FetchOutcome = Fetched(batch: seq<Entry>) | IOFailure

  class MainViewModel {
    var currentOffset: int
    var hasReachedTheEnd: bool
    var initialRandomOffset: int
    var pokemonList: seq<Entry>
    var strongestPokemon: Option<Entry>
    var errorMessage: Option<string>
    var isLoading: bool
    var firstLoading: bool
    var randomLoading: bool
    var inFlight: Fetch

    /**
     * The cursor stays within the catalog, the anchor within the range it is
     * drawn from, `isLoading` says exactly whether a fetch is pending, and the
     * strongest entry, when there is one, is the head of the list.
     */
    ghost predicate Valid()
      reads this
    {
      && 0 <= currentOffset <= MaxPokemonCount
      && 0 <= initialRandomOffset <= MaxOffset
      && (isLoading <==> !inFlight.NoFetch?)
      && (inFlight.PageFetch? ==> inFlight.offset == currentOffset)
      && (inFlight.RandomFetch? ==> 0 <= inFlight.anchor <= MaxOffset && errorMessage == None)
      && (strongestPokemon.Some? ==> |pokemonList| > 0 && pokemonList[0] == strongestPokemon.value)
    }

    /** The guard of `loadPokemonList` that stops paging once it has lapped past the random anchor. */
    predicate AtEnd()
      reads this
    {
      hasReachedTheEnd && currentOffset >= initialRandomOffset
    }

    /** Construction runs the first sequential load and raises the first-load spinner. */
    constructor ()
      ensures Valid()
      ensures pokemonList == [] && strongestPokemon == None && errorMessage == None
      ensures currentOffset == 0 && !hasReachedTheEnd && initialRandomOffset == 0
      ensures isLoading && inFlight == PageFetch(0)
      ensures firstLoading && !randomLoading
    {
      currentOffset := 0;
      hasReachedTheEnd := false;
      initialRandomOffset := 0;
      pokemonList := [];
      strongestPokemon := None;
      errorMessage := None;
      isLoading := false;
      firstLoading := false;
      randomLoading := false;
      inFlight := NoFetch;
      new;
      LoadPokemonList();
      firstLoading := true;
    }

    /**
     * Start of `loadPokemonList`: a no-op at the end of the catalog or while
     * any fetch is pending; otherwise marks the view model busy and requests
     * the page at the current offset.
     */
    method LoadPokemonList()
      requires Valid()
      modifies this`isLoading, this`inFlight
      ensures Valid()
      ensures old(AtEnd() || isLoading) ==> isLoading == old(isLoading) && inFlight == old(inFlight)
      ensures !old(AtEnd() || isLoading) ==> isLoading && inFlight == PageFetch(currentOffset)
    {
      if hasReachedTheEnd && currentOffset >= initialRandomOffset {
        return;
      }
      if isLoading {
        return;
      }
      isLoading := true;
      inFlight := PageFetch(currentOffset);
    }

    /**
     * Completion of `loadPokemonList`. On success the batch is appended in
     * order, the error and the strongest entry are cleared and the cursor
     * moves one page on, wrapping to 0 and recording the end of the catalog
     * once it passes `MaxPokemonCount`. On an I/O failure of the list-page
     * request only the error message changes. Either way the view model is
     * no longer busy.
     */
    method CompleteLoadPokemonList(outcome: FetchOutcome)
      requires Valid() && inFlight.PageFetch?
      modifies this`pokemonList, this`strongestPokemon, this`errorMessage, this`currentOffset,
        this`hasReachedTheEnd, this`isLoading, this`firstLoading, this`inFlight
      ensures Valid()
      ensures !isLoading && inFlight == NoFetch && !firstLoading
      ensures outcome.IOFailure? ==>
        && errorMessage == Some(NetworkError)
        && pokemonList == old(pokemonList) && strongestPokemon == old(strongestPokemon)
        && currentOffset == old(currentOffset) && hasReachedTheEnd == old(hasReachedTheEnd)
      ensures outcome.Fetched? ==>
        && pokemonList == old(pokemonList) + outcome.batch
        && |pokemonList| == |old(pokemonList)| + |outcome.batch|
        && errorMessage == None && strongestPokemon == None
      ensures outcome.Fetched? && old(currentOffset) + Limit > MaxPokemonCount ==>
        currentOffset == 0 && hasReachedTheEnd
      ensures outcome.Fetched? && old(currentOffset) + Limit <= MaxPokemonCount ==>
        currentOffset == old(currentOffset) + Limit && hasReachedTheEnd == old(hasReachedTheEnd)
    {
      match outcome {
        case Fetched(details) =>
          errorMessage := None;
          strongestPokemon := None;
          pokemonList := pokemonList + details;
          currentOffset := currentOffset + Limit;
          if currentOffset > MaxPokemonCount {
            currentOffset := 0;
            hasReachedTheEnd := true;
          }
        case IOFailure =>
          errorMessage := Some(NetworkError);
      }
      isLoading := false;
      firstLoading := false;
      inFlight := NoFetch;
    }

    /**
     * Start of `loadRandomPokemonList` with the randomly drawn `anchor`. The
     * end flag is reset, the anchor recorded and the error cleared even when
     * a fetch is already pending; only when none is pending does a fetch of
     * the page at the anchor start.
     */
    method LoadRandomPokemonList(anchor: int)
      requires Valid()
      requires 0 <= anchor <= MaxOffset
      modifies this`hasReachedTheEnd, this`initialRandomOffset, this`errorMessage,
        this`isLoading, this`randomLoading, this`inFlight
      ensures Valid()
      ensures !hasReachedTheEnd && initialRandomOffset == anchor && errorMessage == None
      ensures old(isLoading) ==>
        isLoading && randomLoading == old(randomLoading) && inFlight == old(inFlight)
      ensures !old(isLoading) ==> isLoading && randomLoading && inFlight == RandomFetch(anchor)
    {
      hasReachedTheEnd := false;
      initialRandomOffset := anchor;
      errorMessage := None;
      if isLoading {
        return;
      }
      isLoading := true;
      randomLoading := true;
      inFlight := RandomFetch(initialRandomOffset);
    }

    /**
     * Completion of `loadRandomPokemonList`. On success the list is replaced
     * by the batch, the strongest entry cleared, and the cursor set one page
     * past the anchor field as it is now. On an I/O failure of the list-page
     * request only the error message changes. Either way the view model is
     * no longer busy.
     */
    method CompleteLoadRandomPokemonList(outcome: FetchOutcome)
      requires Valid() && inFlight.RandomFetch?
      modifies this`pokemonList, this`strongestPokemon, this`errorMessage, this`currentOffset,
        this`isLoading, this`randomLoading, this`inFlight
      ensures Valid()
      ensures !isLoading && !randomLoading && inFlight == NoFetch
      ensures outcome.IOFailure? ==>
        && errorMessage == Some(NetworkError)
        && pokemonList == old(pokemonList) && strongestPokemon == old(strongestPokemon)
        && currentOffset == old(currentOffset)
      ensures outcome.Fetched? ==>
        && pokemonList == outcome.batch
        && strongestPokemon == None && errorMessage == None
        && currentOffset == initialRandomOffset + Limit
    {
      match outcome {
        case Fetched(details) =>
          pokemonList := [];
          strongestPokemon := None;
          pokemonList := pokemonList + details;
          currentOffset := initialRandomOffset + Limit;
        case IOFailure =>
          errorMessage := Some(NetworkError);
      }
      isLoading := false;
      randomLoading := false;
      inFlight := NoFetch;
    }

    /**
     * `findStrongestPokemon(list, …)`: with no stat ticked, or an empty
     * `list`, nothing changes. Otherwise the first entry of `list` with the
     * highest score becomes the strongest one and is moved to the front of
     * the view model's list (its first equal element removed, the entry
     * inserted at index 0). When `list` is the view model's own list, as the
     * screen passes it, the result is a permutation of the old list with
     * the selected entry first and the others in their old order.
     */
    method FindStrongestPokemon(list: seq<Entry>, useAttack: bool, useDefense: bool, useHP: bool)
      requires Valid()
      modifies this`strongestPokemon, this`pokemonList
      ensures Valid()
      ensures var c := Criteria(useAttack, useDefense, useHP);
        !AnySelected(c) || list == [] ==>
          pokemonList == old(pokemonList) && strongestPokemon == old(strongestPokemon)
      ensures var c := Criteria(useAttack, useDefense, useHP);
        AnySelected(c) && list != [] ==>
          && strongestPokemon == Some(list[FirstMaxIndex(list, c)])
          && pokemonList == Promote(old(pokemonList), list[FirstMaxIndex(list, c)])
      ensures var c := Criteria(useAttack, useDefense, useHP);
        AnySelected(c) && list != [] && list == old(pokemonList) ==>
          && pokemonList == MoveToFront(old(pokemonList), FirstMaxIndex(list, c))
          && multiset(pokemonList) == multiset(old(pokemonList))
    {
      var c := Criteria(useAttack, useDefense, useHP);
      if !useAttack && !useDefense && !useHP {
        return;
      }
      var strongest := MaxByOrNull(list, c);
      if strongest.Some? {
        var x := strongest.value;
        ghost var before := pokemonList;
        strongestPokemon := strongest;
        pokemonList := RemoveFirst(pokemonList, x);
        pokemonList := [x] + pokemonList;
        assert pokemonList == Promote(before, x);
        assert Valid();
        if list == before {
          ghost var k := FirstMaxIndex(list, c);
          assert pokemonList == MoveToFront(before, k) && multiset(pokemonList) == multiset(before) by {
            PromoteFirstMax(list, c);
            MoveToFrontIsPermutation(list, k);
          }
        }
      }
    }
  }
}
