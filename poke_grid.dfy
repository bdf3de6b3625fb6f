/**
 * The `PokeGrid` component: what it derives from the `pokemons` prop and the
 * search hook's state — the badge text, one card per filtered entry, and
 * the empty-state message.
 */
module PokeGrid {
  import opened Wrappers
  import opened JsString
  import opened PokemonTypes
  import opened SearchPokemons

  /** What one card shows: link key and target, image, name and `#` label. */
  datatype Card = Card(key: string, href: string, imageSrc: string, imageAlt: string, name: string, idLabel: string)

  /** The grid's text content; `emptyMessage` is `None` when the empty-state panel is not rendered. */
  datatype GridView = GridView(badge: string, cards: seq<Card>, emptyMessage: Option<string>)

  /** `#${id.padStart(3, "0")}` */
  function IdLabel(id: string): (r: string)
    ensures |r| == 1 + Max(3, |id|)
    ensures r[0] == '#' && r[|r| - |id|..] == id
    ensures 3 <= |id| ==> r == "#" + id
  {
    "#" + PadStart(id, 3, "0")
  }

  /** Every position between the `#` and the id holds a '0'. */
  lemma IdLabelZeros(id: string, i: int)
    requires 1 <= i < |IdLabel(id)| - |id|
    ensures IdLabel(id)[i] == '0'
  {
    PadStartSingle(id, 3, '0', i - 1);
  }

  /** `/pokemon/${pokemon.id}` */
  const PokemonRoute := "/pokemon/"

  /** `/pokemon/${pokemon.id}`: the route followed by the raw, unpadded id. */
  function CardHref(id: string): (r: string)
    ensures |r| == |PokemonRoute| + |id|
    ensures r[..|PokemonRoute|] == PokemonRoute && r[|PokemonRoute|..] == id
  {
    PokemonRoute + id
  }

  /** One card: keyed by the id, linking to it unpadded, labelled with it padded. */
  function RenderCard(p: Pokemon): (c: Card)
    ensures c.key == p.id
    ensures |c.href| == |PokemonRoute| + |p.id| && c.href[|PokemonRoute|..] == p.id
    ensures |p.id| < |c.idLabel| && c.idLabel[0] == '#' && c.idLabel[|c.idLabel| - |p.id|..] == p.id
    ensures c.imageSrc == p.image && c.imageAlt == p.name && c.name == p.name
  {
    Card(p.id, CardHref(p.id), p.image, p.name, p.name, IdLabel(p.id))
  }

  /** `filteredPokemons.map(...)`: one card per entry, in the same order. */
  function RenderCards(ps: seq<Pokemon>): (cards: seq<Card>)
    ensures |cards| == |ps|
    ensures forall i :: 0 <= i < |ps| ==> cards[i] == RenderCard(ps[i])
  {
    if ps == [] then [] else [RenderCard(ps[0])] + RenderCards(ps[1..])
  }

  const BadgeWords := " Pokémon encontrados"

  /** `text` starts with the decimal digits of `n` followed by a space. */
  predicate OpensWithCount(text: string, n: nat) {
    var digits := NatToString(n);
    |digits| < |text| && text[..|digits|] == digits && text[|digits|] == ' '
  }

  /**
   * `{shown} Pokémon encontrados{searchTerm && ` (filtrado de ${total})`}`:
   * opens with the shown count and a space, and ends with the
   * " (filtrado de N)" suffix exactly when the term is non-empty.
   */
  function BadgeText(shownCount: nat, searchTerm: string, totalCount: nat): (b: string)
    ensures OpensWithCount(b, shownCount)
    ensures b[|b| - 1] == ')' <==> searchTerm != ""
    ensures var suffix := " (filtrado de " + NatToString(totalCount) + ")";
            searchTerm != "" ==> |suffix| <= |b| && b[|b| - |suffix|..] == suffix
    ensures searchTerm == "" ==> b == NatToString(shownCount) + BadgeWords
  {
    var head := NatToString(shownCount) + BadgeWords;
    var suffix := " (filtrado de " + NatToString(totalCount) + ")";
    assert head[|NatToString(shownCount)|] == ' ';
    assert head[|head| - 1] == 's';
    if searchTerm != "" then
      assert (head + suffix)[..|NatToString(shownCount)| + 1] == head[..|NatToString(shownCount)| + 1];
      head + suffix
    else
      head
  }

  const NoResults := "No se encontraron Pokémon"

  /**
   * The empty-state text: with a term, the generic text followed by the term
   * in double quotes; without one, the generic text alone.
   */
  function EmptyMessage(searchTerm: string): (m: string)
    ensures var quoted := "\"" + searchTerm + "\"";
            searchTerm != "" ==> |NoResults| + |quoted| <= |m| && m[..|NoResults|] == NoResults && m[|m| - |quoted|..] == quoted
    ensures searchTerm == "" ==> m == NoResults
  {
    if searchTerm != "" then
      var lead := NoResults + " que coincidan con ";
      var quoted := "\"" + searchTerm + "\"";
      assert (lead + quoted)[..|NoResults|] == lead[..|NoResults|];
      lead + quoted
    else NoResults
  }

  /**
   * The component. `pokemons` is the prop; `data` and `searchTerm` are the
   * search hook's state. The hook ignores the prop it is handed, so the
   * cards and the count come from `data` and the prop only gives the
   * total in the suffix.
   */
  function RenderGrid(pokemons: seq<Pokemon>, data: Option<seq<Pokemon>>, searchTerm: string): (v: GridView)
    ensures |v.cards| == |FilteredPokemons(data, searchTerm)|
    ensures v.emptyMessage.Some? <==> v.cards == []
    ensures OpensWithCount(v.badge, |v.cards|)
  {
    var filtered := FilteredPokemons(data, searchTerm);
    GridView(
      BadgeText(|filtered|, searchTerm, |pokemons|),
      RenderCards(filtered),
      if |filtered| == 0 then Some(EmptyMessage(searchTerm)) else None)
  }

  // ---- Properties of the rendered grid ----

  /** One card per filtered entry, in filtered order, linking to the raw unpadded id. */
  lemma GridCardsFollowFiltered(pokemons: seq<Pokemon>, data: Option<seq<Pokemon>>, searchTerm: string, i: int)
    requires 0 <= i < |FilteredPokemons(data, searchTerm)|
    ensures var v := RenderGrid(pokemons, data, searchTerm);
            var p := FilteredPokemons(data, searchTerm)[i];
            |v.cards| == |FilteredPokemons(data, searchTerm)| &&
            v.cards[i].key == p.id && v.cards[i].href == "/pokemon/" + p.id &&
            v.cards[i].name == p.name && v.cards[i].imageSrc == p.image &&
            v.cards[i].idLabel == IdLabel(p.id)
  {
  }

  /**
   * The "(filtrado de N)" suffix is there exactly when the term is non-empty
   * (whitespace-only included), and N is the length of the prop list.
   */
  lemma GridBadgeSuffix(pokemons: seq<Pokemon>, data: Option<seq<Pokemon>>, searchTerm: string)
    ensures var v := RenderGrid(pokemons, data, searchTerm);
            var suffix := " (filtrado de " + NatToString(|pokemons|) + ")";
            (v.badge[|v.badge| - 1] == ')' <==> searchTerm != "") &&
            (searchTerm != "" ==> |suffix| <= |v.badge| && v.badge[|v.badge| - |suffix|..] == suffix) &&
            (searchTerm == "" ==> v.badge == NatToString(|FilteredPokemons(data, searchTerm)|) + BadgeWords)
  {
  }

  /** The empty-state panel is rendered exactly when the filtered list is empty. */
  lemma GridEmptyPanel(pokemons: seq<Pokemon>, data: Option<seq<Pokemon>>, searchTerm: string)
    ensures var v := RenderGrid(pokemons, data, searchTerm);
            (v.emptyMessage.Some? <==> FilteredPokemons(data, searchTerm) == []) &&
            (v.emptyMessage.Some? <==> v.cards == [])
  {
  }

  /** Only the length of the prop list reaches the output. */
  lemma GridIgnoresPropContents(pokemons1: seq<Pokemon>, pokemons2: seq<Pokemon>, data: Option<seq<Pokemon>>, searchTerm: string)
    requires |pokemons1| == |pokemons2|
    ensures RenderGrid(pokemons1, data, searchTerm) == RenderGrid(pokemons2, data, searchTerm)
  {
  }

  /** A whitespace-only term filters nothing out, yet the badge still carries the suffix. */
  lemma WhitespaceTermShowsSuffix(pokemons: seq<Pokemon>, ps: seq<Pokemon>)
    ensures var v := RenderGrid(pokemons, Some(ps), " ");
            v.cards == RenderCards(ps) && v.badge[|v.badge| - 1] == ')'
  {
    BlankTermReturnsFetchedList(Some(ps), " ");
    GridBadgeSuffix(pokemons, Some(ps), " ");
  }

  /** With no term and the prop equal to the fetched list, the badge reads "N Pokémon encontrados". */
  lemma UnfilteredBadge(ps: seq<Pokemon>)
    ensures RenderGrid(ps, Some(ps), "").badge == NatToString(|ps|) + BadgeWords
  {
    BlankTermReturnsFetchedList(Some(ps), "");
  }

  /** Ten fetched entries and no term: ten cards and the badge "10 Pokémon encontrados". */
  lemma TenEntriesExample(ps: seq<Pokemon>)
    requires |ps| == 10
    ensures var v := RenderGrid(ps, Some(ps), "");
            |v.cards| == 10 && v.badge == "10 Pokémon encontrados" && v.emptyMessage == None
  {
    BlankTermReturnsFetchedList(Some(ps), "");
    assert RenderGrid(ps, Some(ps), "").badge == BadgeText(10, "", 10);
    TenBadgeText();
  }

  lemma TenBadgeText()
    ensures BadgeText(10, "", 10) == "10 Pokémon encontrados"
  {
    assert NatToString(10) == "10";
    assert "10" + BadgeWords == "10 Pokémon encontrados";
  }

  /** "7" is labelled "#007"; ids of three or more characters are not padded. */
  lemma IdLabelExamples()
    ensures IdLabel("7") == "#007"
    ensures IdLabel("25") == "#025"
    ensures IdLabel("150") == "#150"
    ensures IdLabel("1000") == "#1000"
  {
  }
}
