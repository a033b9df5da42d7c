/**
 * Client code driving the view model the way the screen does, showing what
 * the contracts of `MainViewModel` let a caller conclude.
 */
module Scenarios {

  import opened Wrappers
  import opened PokemonEntities
  import opened Strongest
  import opened PokemonViewModel
  import KotlinInt

  function WithAttack(name: string, attack: int): Entry {
    (name, PokemonDetail(Sprites(None), 7, 69, [], [Stat(attack, StatName("attack"))]))
  }

  lemma AttackScore(name: string, attack: int, crit: Criteria)
    requires crit.useAttack && KotlinInt.IsInt(attack)
    ensures ItemScore(WithAttack(name, attack), crit) == attack
  {
    var st := Stat(attack, StatName("attack"));
    var stats := WithAttack(name, attack).1.stats;
    assert stats == [st] && stats[..0] == [];
    assert Contribution(st, crit) == attack;
    assert Score(stats, crit) == KotlinInt.Add(Score([], crit), attack);
  }

  /** Attack 50, 80, 80: the first of the two 80s is selected and moved to the front. */
  method TieBreakScenario() {
    var vm := new MainViewModel();
    var a, b, c := WithAttack("a", 50), WithAttack("b", 80), WithAttack("c", 80);
    vm.CompleteLoadPokemonList(Fetched([a, b, c]));
    assert vm.pokemonList == [a, b, c];
    var crit := Criteria(true, false, false);
    assert FirstMaxIndex([a, b, c], crit) == 1 by {
      AttackScore("a", 50, crit);
      AttackScore("b", 80, crit);
      AttackScore("c", 80, crit);
      FirstMaxUnique([a, b, c], crit, 1);
    }
    assert MoveToFront([a, b, c], 1) == [b, a, c];
    vm.FindStrongestPokemon(vm.pokemonList, true, false, false);
    assert vm.strongestPokemon == Some(b);
    assert vm.pokemonList == [b, a, c];
  }

  /** A first load whose list-page request fails with an I/O error leaves the list empty and the cursor at 0, and raises the error. */
  method FailedFirstLoadScenario() {
    var vm := new MainViewModel();
    vm.CompleteLoadPokemonList(IOFailure);
    assert vm.pokemonList == [] && vm.currentOffset == 0 && !vm.hasReachedTheEnd;
    assert vm.errorMessage == Some(NetworkError) && !vm.isLoading;
    // The user can retry: the next call starts a fetch of the same page.
    vm.LoadPokemonList();
    assert vm.inFlight == PageFetch(0);
  }

  /** While the first page is pending, further loads start nothing. */
  method BusyGuardScenario() {
    var vm := new MainViewModel();
    vm.LoadPokemonList();
    assert vm.inFlight == PageFetch(0);
    vm.LoadRandomPokemonList(100);
    assert vm.inFlight == PageFetch(0) && vm.initialRandomOffset == 100;
    vm.CompleteLoadPokemonList(Fetched([WithAttack("a", 1)]));
    assert vm.currentOffset == Limit && |vm.pokemonList| == 1;
  }

  /**
   * Two taps on the random button while the first random page is pending:
   * the page comes from the first anchor, but the cursor is set from the
   * second one, which overwrote the anchor field in the meantime.
   */
  method SecondRandomTapScenario(page: seq<Entry>) {
    var vm := new MainViewModel();
    vm.CompleteLoadPokemonList(Fetched([]));
    vm.LoadRandomPokemonList(100);
    assert vm.inFlight == RandomFetch(100);
    vm.LoadRandomPokemonList(500);
    assert vm.inFlight == RandomFetch(100);
    vm.CompleteLoadRandomPokemonList(Fetched(page));
    assert vm.pokemonList == page && vm.currentOffset == 530;
  }

  /**
   * After a random page at anchor 100 (which covered offsets 100..129), paging
   * runs to the end of the catalog, wraps to 0 and goes on while the cursor
   * is below the anchor: it requests the page at 90, which covers 90..119
   * again, and stops only once the cursor reaches 120.
   */
  method WrapRefetchesRandomPageScenario(vm: MainViewModel, pages: seq<seq<Entry>>)
    requires vm.Valid() && |pages| == 5
    requires vm.currentOffset == 1300 && vm.initialRandomOffset == 100
    requires !vm.hasReachedTheEnd && !vm.isLoading
    modifies vm
  {
    vm.LoadPokemonList();
    vm.CompleteLoadPokemonList(Fetched(pages[0]));
    assert vm.currentOffset == 0 && vm.hasReachedTheEnd;
    vm.LoadPokemonList();
    vm.CompleteLoadPokemonList(Fetched(pages[1]));
    vm.LoadPokemonList();
    vm.CompleteLoadPokemonList(Fetched(pages[2]));
    vm.LoadPokemonList();
    vm.CompleteLoadPokemonList(Fetched(pages[3]));
    assert vm.currentOffset == 90 && vm.initialRandomOffset == 100;
    vm.LoadPokemonList();
    assert vm.inFlight == PageFetch(90);
    vm.CompleteLoadPokemonList(Fetched(pages[4]));
    assert vm.currentOffset == 120;
    vm.LoadPokemonList();
    assert !vm.isLoading && vm.inFlight == NoFetch;
  }

  /** Selecting twice with the same criteria on the screen's own list selects the same entry and changes nothing more. */
  method SelectTwice(vm: MainViewModel, useAttack: bool, useDefense: bool, useHP: bool)
    requires vm.Valid()
    requires AnySelected(Criteria(useAttack, useDefense, useHP)) && vm.pokemonList != []
    modifies vm`pokemonList, vm`strongestPokemon
    ensures vm.Valid()
    ensures vm.pokemonList
         == MoveToFront(old(vm.pokemonList), FirstMaxIndex(old(vm.pokemonList), Criteria(useAttack, useDefense, useHP)))
    ensures vm.strongestPokemon == Some(vm.pokemonList[0])
  {
    var crit := Criteria(useAttack, useDefense, useHP);
    ghost var s := vm.pokemonList;
    vm.FindStrongestPokemon(vm.pokemonList, useAttack, useDefense, useHP);
    ghost var first, selected := vm.pokemonList, vm.strongestPokemon;
    SelectAgainPicksFront(s, crit);
    PromoteFront(first);
    vm.FindStrongestPokemon(vm.pokemonList, useAttack, useDefense, useHP);
    assert vm.pokemonList == first && vm.strongestPokemon == selected;
  }
}
