/**
 * The recipes page: the list narrowed by a protein chip and by a search
 * over recipe names, and the button that clears both.
 */
module RecipesList {
  import opened Wrappers
  import opened Text
  import opened Lists

  /** A listed recipe as the page reads it: `name` and `protein` are `None`
      when the stored document lacks them. */
  datatype Item = Item(id: string, name: Option<string>, protein: Option<string>, tags: seq<string>)

  /** The chips the page offers; `"All"` switches the protein filter off. */
  const Proteins: seq<string> := ["All", "Chicken", "Beef", "Fish", "Pork", "Turkey", "Vegetarian", "Other"]

  /** `protein && protein !== "All"`. */
  predicate ProteinFilterOn(protein: string) {
    protein != "" && protein != "All"
  }

  /** The name the search looks in: `(r.name || "").toLowerCase()`. */
  function SearchedName(r: Item): string {
    Lower(r.name.GetOr(""))
  }

  /** The predicate handed to `items.filter`, with the key `q` already
      trimmed and lower-cased. */
  predicate Keeps(r: Item, q: string, protein: string) {
    && !(ProteinFilterOn(protein) && r.protein != Some(protein))
    && !(q != "" && !Contains(SearchedName(r), q))
  }

  /** `filtered`: the items the page shows, in their stored order. */
  function Filtered(items: seq<Item>, debouncedQuery: string, protein: string): (r: seq<Item>)
    ensures IsSublist(r, items)
    ensures forall x :: x in r <==> x in items && Keeps(x, SearchKey(debouncedQuery), protein)
  {
    var q := SearchKey(debouncedQuery);
    Filter(items, x => Keeps(x, q, protein))
  }

  /** The "Showing n of m" line never shows more than it has. */
  lemma ShownCount(items: seq<Item>, debouncedQuery: string, protein: string)
    ensures |Filtered(items, debouncedQuery, protein)| <= |items|
  {
    SublistLength(Filtered(items, debouncedQuery, protein), items);
  }

  /** With the chip on `"All"` (or no chip), the protein plays no part: an
      item is listed exactly when its name matches the query. */
  lemma NoProteinFilter(items: seq<Item>, debouncedQuery: string, protein: string)
    requires protein == "" || protein == "All"
    ensures forall x :: x in Filtered(items, debouncedQuery, protein) <==>
      x in items && (AllSpace(debouncedQuery) || Contains(SearchedName(x), SearchKey(debouncedQuery)))
  {
  }

  /** Any other chip keeps exactly the items whose protein equals it,
      character for character; with a blank query that is the whole
      result. */
  lemma ProteinExact(items: seq<Item>, debouncedQuery: string, protein: string)
    requires ProteinFilterOn(protein)
    ensures forall x :: x in Filtered(items, debouncedQuery, protein) ==> x.protein == Some(protein)
    ensures AllSpace(debouncedQuery) ==>
      forall x :: x in Filtered(items, debouncedQuery, protein) <==> x in items && x.protein == Some(protein)
  {
  }

  /** The protein comparison is case-sensitive: a recipe stored with
      protein `"chicken"` is not listed under the `"Chicken"` chip. */
  lemma ProteinCaseSensitive(items: seq<Item>, debouncedQuery: string)
    ensures forall x :: x in items && x.protein == Some("chicken") ==> x !in Filtered(items, debouncedQuery, "Chicken")
  {
    assert "chicken"[0] != "Chicken"[0];
  }

  /** The query searches names only: two items with the same name are
      matched alike whatever their proteins and tags. */
  lemma QuerySearchesNamesOnly(a: Item, b: Item, q: string)
    requires a.name == b.name
    ensures Keeps(a, q, "All") <==> Keeps(b, q, "All")
  {
  }

  /** The query is not looked for in the protein or the tags: searching
      `"chicken"` does not list a recipe named `"Soup"`, whatever its
      protein and tags. */
  lemma QueryIgnoresProtein(items: seq<Item>, protein: string)
    ensures forall x :: x in items && x.name == Some("Soup") ==> x !in Filtered(items, "chicken", protein)
  {
    var q := SearchKey("chicken");
    assert |q| == 7 by { TrimOfTrimmed("chicken"); }
    forall x | x in items && x.name == Some("Soup")
      ensures !Keeps(x, q, protein)
    {
      assert |SearchedName(x)| == 4;
      ShortNoContains(SearchedName(x), q);
    }
  }

  /** A key longer than the text is not in it. */
  lemma {:induction false} ShortNoContains(s: string, q: string)
    requires |s| < |q|
    ensures !Contains(s, q)
    decreases |s|
  {
    if s != [] {
      ShortNoContains(s[1..], q);
    }
  }

  // ================================================================ clearing

  /** The two filter inputs of the page. */
  datatype Filters = Filters(query: string, protein: string)

  /** `clearFilters()`. */
  function ClearFilters(f: Filters): (g: Filters)
    ensures AllSpace(g.query) && !ProteinFilterOn(g.protein)
  {
    Filters("", "All")
  }

  /** Once the debounced query has caught up with the cleared box, every
      item is listed, in order. */
  lemma ClearedShowsAll(items: seq<Item>, f: Filters)
    ensures Filtered(items, ClearFilters(f).query, ClearFilters(f).protein) == items
  {
    var g := ClearFilters(f);
    FilterAll(items, x => Keeps(x, SearchKey(g.query), g.protein));
  }
}
