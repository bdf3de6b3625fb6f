/**
 * The `useSearchPokemons` hook: the fetched list (an input here), the
 * `searchTerm` state with its `handleSearch` setter, and the derived
 * `filteredPokemons` and `pokemons` values.
 */
module SearchPokemons {
  import opened Wrappers
  import opened JsString
  import opened PokemonTypes

  /** `pokemon.name.toLowerCase().includes(searchTerm.toLowerCase())` */
  predicate NameMatches(p: Pokemon, searchTerm: string): (b: bool)
    ensures b <==> exists i :: OccursAt(ToLower(p.name), ToLower(searchTerm), i)
  {
    Includes(ToLower(p.name), ToLower(searchTerm))
  }

  /** `pokemons.filter(...)` with the name test above, left to right. */
  function FilterByName(ps: seq<Pokemon>, searchTerm: string): (r: seq<Pokemon>)
    ensures |r| <= |ps|
    ensures forall i :: 0 <= i < |r| ==> r[i] in ps && NameMatches(r[i], searchTerm)
  {
    if ps == [] then []
    else if NameMatches(ps[0], searchTerm) then [ps[0]] + FilterByName(ps[1..], searchTerm)
    else FilterByName(ps[1..], searchTerm)
  }

  /** `data?.pokemons || []`: the fetched list, or nothing while it is absent. */
  function Pokemons(data: Option<seq<Pokemon>>): (r: seq<Pokemon>)
    ensures data.None? ==> r == []
    ensures data.Some? ==> r == data.value
  {
    match data
    case None => []
    case Some(ps) => ps
  }

  /**
   * The `useMemo` body: a blank term (after trimming) gives the fetched list;
   * any other term, untrimmed, filters it; an absent list gives `[]`.
   */
  function FilteredPokemons(data: Option<seq<Pokemon>>, searchTerm: string): (r: seq<Pokemon>)
    ensures |r| <= |Pokemons(data)|
    ensures forall i :: 0 <= i < |r| ==> r[i] in Pokemons(data)
    ensures !IsBlank(searchTerm) ==> forall i :: 0 <= i < |r| ==> NameMatches(r[i], searchTerm)
  {
    if IsBlank(searchTerm) then Pokemons(data)
    else match data
      case None => []
      case Some(ps) => FilterByName(ps, searchTerm)
  }

  /** `a` is `b` with some entries removed and the rest kept in order. */
  ghost predicate IsSubsequence(a: seq<Pokemon>, b: seq<Pokemon>)
    decreases |b|
  {
    a == [] ||
    (b != [] && ((a[0] == b[0] && IsSubsequence(a[1..], b[1..])) || IsSubsequence(a, b[1..])))
  }

  lemma {:induction false} IsSubsequenceReflexive(a: seq<Pokemon>)
    ensures IsSubsequence(a, a)
    decreases |a|
  {
    if a != [] {
      IsSubsequenceReflexive(a[1..]);
    }
  }

  // ---- FilterByName ----

  /** The filter keeps exactly the entries whose name matches, in their original order. */
  lemma {:induction false} FilterByNameIsSubsequence(ps: seq<Pokemon>, searchTerm: string)
    ensures IsSubsequence(FilterByName(ps, searchTerm), ps)
    decreases |ps|
  {
    if ps != [] {
      FilterByNameIsSubsequence(ps[1..], searchTerm);
      var r := FilterByName(ps, searchTerm);
      if NameMatches(ps[0], searchTerm) {
        assert r[0] == ps[0] && r[1..] == FilterByName(ps[1..], searchTerm);
      }
    }
  }

  /** Every entry occurs in the result as often as in the input if it matches, and never otherwise. */
  lemma {:induction false} FilterByNameCounts(ps: seq<Pokemon>, searchTerm: string, p: Pokemon)
    ensures multiset(FilterByName(ps, searchTerm))[p] ==
            if NameMatches(p, searchTerm) then multiset(ps)[p] else 0
    decreases |ps|
  {
    if ps != [] {
      FilterByNameCounts(ps[1..], searchTerm, p);
      assert ps == [ps[0]] + ps[1..];
    }
  }

  /** Soundness and completeness: an entry is in the result iff it is in the input and matches. */
  lemma FilterByNameMembership(ps: seq<Pokemon>, searchTerm: string, p: Pokemon)
    ensures p in FilterByName(ps, searchTerm) <==> p in ps && NameMatches(p, searchTerm)
  {
    FilterByNameCounts(ps, searchTerm, p);
  }

  /** A list whose every entry matches passes through unchanged. */
  lemma {:induction false} FilterByNameKeepsAllMatching(ps: seq<Pokemon>, searchTerm: string)
    requires forall i :: 0 <= i < |ps| ==> NameMatches(ps[i], searchTerm)
    ensures FilterByName(ps, searchTerm) == ps
    decreases |ps|
  {
    if ps != [] {
      FilterByNameKeepsAllMatching(ps[1..], searchTerm);
    }
  }

  /** Filtering twice with the same term changes nothing more. */
  lemma FilterByNameIdempotent(ps: seq<Pokemon>, searchTerm: string)
    ensures FilterByName(FilterByName(ps, searchTerm), searchTerm) == FilterByName(ps, searchTerm)
  {
    var r := FilterByName(ps, searchTerm);
    forall i | 0 <= i < |r| ensures NameMatches(r[i], searchTerm) {
      FilterByNameMembership(ps, searchTerm, r[i]);
    }
    FilterByNameKeepsAllMatching(r, searchTerm);
  }

  // ---- FilteredPokemons and Pokemons ----

  /** A blank term returns the fetched list unchanged: same entries, same order. */
  lemma BlankTermReturnsFetchedList(data: Option<seq<Pokemon>>, searchTerm: string)
    requires forall i :: 0 <= i < |searchTerm| ==> IsJsWhiteSpace(searchTerm[i])
    ensures FilteredPokemons(data, searchTerm) == Pokemons(data)
  {
  }

  /** While the list is absent, both derived lists are empty whatever the term. */
  lemma AbsentDataGivesEmpty(searchTerm: string)
    ensures FilteredPokemons(None, searchTerm) == [] && Pokemons(None) == []
  {
  }

  /** The filtered list is always an order-preserving subsequence of the fetched list. */
  lemma FilteredIsSubsequence(data: Option<seq<Pokemon>>, searchTerm: string)
    ensures IsSubsequence(FilteredPokemons(data, searchTerm), Pokemons(data))
  {
    if IsBlank(searchTerm) {
      IsSubsequenceReflexive(Pokemons(data));
    } else if data.Some? {
      FilterByNameIsSubsequence(data.value, searchTerm);
    }
  }

  /** For a non-blank term, every returned entry's lower-cased name contains the lower-cased term. */
  lemma FilteredSound(data: Option<seq<Pokemon>>, searchTerm: string, p: Pokemon)
    requires !IsBlank(searchTerm)
    requires p in FilteredPokemons(data, searchTerm)
    ensures exists i :: OccursAt(ToLower(p.name), ToLower(searchTerm), i)
  {
    FilterByNameMembership(data.value, searchTerm, p);
  }

  /** Every fetched entry whose lower-cased name contains the lower-cased term is returned. */
  lemma FilteredComplete(data: Option<seq<Pokemon>>, searchTerm: string, p: Pokemon, i: int)
    requires p in Pokemons(data)
    requires OccursAt(ToLower(p.name), ToLower(searchTerm), i)
    ensures p in FilteredPokemons(data, searchTerm)
  {
    if !IsBlank(searchTerm) {
      FilterByNameMembership(data.value, searchTerm, p);
    }
  }

  /** Lower-casing the term does not change blankness. */
  lemma {:induction false} BlankIgnoresCase(s: string)
    ensures IsBlank(ToLower(s)) == IsBlank(s)
  {
    var t := ToLower(s);
    assert forall i :: 0 <= i < |s| ==> IsJsWhiteSpace(t[i]) == IsJsWhiteSpace(s[i]);
  }

  /** Two terms that differ only in the case of ASCII letters give identical results. */
  lemma FilteredIgnoresCase(data: Option<seq<Pokemon>>, term1: string, term2: string)
    requires SameUpToAsciiCase(term1, term2)
    ensures FilteredPokemons(data, term1) == FilteredPokemons(data, term2)
  {
    ToLowerFoldsCase(term1, term2);
    FilteredSameLowered(data, term1, term2);
  }

  /** For every fetched list, "PIKA" and "pika" give the same result. */
  lemma UpperAndLowerPikaAgree(data: Option<seq<Pokemon>>)
    ensures FilteredPokemons(data, "PIKA") == FilteredPokemons(data, "pika")
  {
    assert SameUpToAsciiCase("PIKA", "pika");
    FilteredIgnoresCase(data, "PIKA", "pika");
  }

  /** The result depends on the term only through its lower-cased form. */
  lemma FilteredSameLowered(data: Option<seq<Pokemon>>, term1: string, term2: string)
    requires ToLower(term1) == ToLower(term2)
    ensures FilteredPokemons(data, term1) == FilteredPokemons(data, term2)
  {
    BlankIgnoresCase(term1);
    BlankIgnoresCase(term2);
    if !IsBlank(term1) && data.Some? {
      FilterByNameSameNeedle(data.value, term1, term2);
    }
  }

  lemma {:induction false} FilterByNameSameNeedle(ps: seq<Pokemon>, term1: string, term2: string)
    requires ToLower(term1) == ToLower(term2)
    ensures FilterByName(ps, term1) == FilterByName(ps, term2)
    decreases |ps|
  {
    if ps != [] {
      FilterByNameSameNeedle(ps[1..], term1, term2);
    }
  }

  /** Filtering the filtered list again with the same term returns it unchanged. */
  lemma FilteredIdempotent(data: Option<seq<Pokemon>>, searchTerm: string)
    ensures FilteredPokemons(Some(FilteredPokemons(data, searchTerm)), searchTerm)
         == FilteredPokemons(data, searchTerm)
  {
    if !IsBlank(searchTerm) && data.Some? {
      FilterByNameIdempotent(data.value, searchTerm);
    }
  }

  // ---- Worked examples ----

  function Pikachu(): Pokemon { Pokemon("25", "Pikachu", "pikachu.png") }
  function Charmander(): Pokemon { Pokemon("4", "Charmander", "charmander.png") }
  function Squirtle(): Pokemon { Pokemon("7", "Squirtle", "squirtle.png") }

  lemma PikachuName()
    ensures var n := ToLower(Pikachu().name);
            |n| == 7 && n[..4] == "pika" && ' ' !in n
  {
    var n := ToLower("Pikachu");
    assert n[0] == 'p' && n[1] == 'i' && n[2] == 'k' && n[3] == 'a';
    forall i | 0 <= i < 7 ensures n[i] != ' ' {
      assert !IsJsWhiteSpace("Pikachu"[i]);
    }
  }

  lemma SpacedPikaIsNotBlank()
    ensures !IsBlank(" pika")
  {
    assert !IsJsWhiteSpace(" pika"[1]);
  }

  lemma SpacedPikaMissesPikachu()
    ensures !NameMatches(Pikachu(), " pika")
  {
    PikachuName();
    assert ToLower(" pika") == " pika";
    IncludesNeedsEveryChar(ToLower(Pikachu().name), " pika", 0);
  }

  /** A non-blank term is matched untrimmed: " pika" does not find "Pikachu". */
  lemma UntrimmedTermExample()
    ensures FilteredPokemons(Some([Pikachu()]), " pika") == []
  {
    SpacedPikaIsNotBlank();
    SpacedPikaMissesPikachu();
    FilterByNameSingleton(Pikachu(), " pika");
  }

  lemma UpperPikaIsNotBlank()
    ensures !IsBlank("PIKA")
  {
    assert !IsJsWhiteSpace("PIKA"[0]);
  }

  lemma UpperPikaFindsPikachu()
    ensures NameMatches(Pikachu(), "PIKA")
  {
    PikachuName();
    assert ToLower("PIKA") == "pika";
  }

  /** Matching ignores case: "PIKA" finds "Pikachu". */
  lemma UpperCaseTermExample()
    ensures FilteredPokemons(Some([Pikachu()]), "PIKA") == [Pikachu()]
  {
    UpperPikaIsNotBlank();
    UpperPikaFindsPikachu();
    FilterByNameSingleton(Pikachu(), "PIKA");
  }

  lemma CharIsNotBlank()
    ensures !IsBlank("char")
  {
    assert !IsJsWhiteSpace("char"[0]);
  }

  lemma CharLower()
    ensures ToLower("char") == "char"
  {
  }

  lemma CharFindsCharmander()
    ensures NameMatches(Charmander(), "char")
  {
    var n := ToLower("Charmander");
    assert n[0] == 'c' && n[1] == 'h' && n[2] == 'a' && n[3] == 'r';
    assert n[..4] == "char";
    CharLower();
  }

  lemma CharMissesSquirtle()
    ensures !NameMatches(Squirtle(), "char")
  {
    var n := ToLower("Squirtle");
    forall i | 0 <= i < |n| ensures n[i] != 'c' {
      assert "Squirtle"[i] != 'c' && "Squirtle"[i] != 'C';
    }
    CharLower();
    IncludesNeedsEveryChar(n, "char", 0);
  }

  /** The term "char" keeps Charmander and drops Squirtle. */
  lemma CharExample()
    ensures FilteredPokemons(Some([Charmander(), Squirtle()]), "char") == [Charmander()]
  {
    CharIsNotBlank();
    CharFindsCharmander();
    CharMissesSquirtle();
    var ps := [Charmander(), Squirtle()];
    assert ps[1..] == [Squirtle()];
    FilterByNameSingleton(Squirtle(), "char");
  }

  lemma FilterByNameSingleton(p: Pokemon, searchTerm: string)
    ensures FilterByName([p], searchTerm) == if NameMatches(p, searchTerm) then [p] else []
  {
  }

  /**
   * The hook's state: the list fetched for it (an input of the model) and
   * the `searchTerm` that `handleSearch` replaces.
   */
  class SearchPokemonsHook {
    const data: Option<seq<Pokemon>>
    var searchTerm: string

    /** `useState<string>("")`: the first render filters nothing out. */
    constructor (data: Option<seq<Pokemon>>)
      ensures this.data == data && searchTerm == ""
      ensures Filtered() == All()
    {
      this.data := data;
      searchTerm := "";
    }

    /** `filteredPokemons` for the current state. */
    function Filtered(): seq<Pokemon>
      reads this
    {
      FilteredPokemons(data, searchTerm)
    }

    /** `pokemons` for the current state. */
    function All(): seq<Pokemon>
      reads this
    {
      Pokemons(data)
    }

    /** `handleSearch`: replaces the term; the fetched list stays as it was. */
    method HandleSearch(newSearchTerm: string)
      modifies this
      ensures searchTerm == newSearchTerm
      ensures Filtered() == FilteredPokemons(data, newSearchTerm)
      ensures All() == old(All())
    {
      searchTerm := newSearchTerm;
    }
  }
}
