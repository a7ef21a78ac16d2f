/**
 * The fruit-search autocomplete: `search(str)` walks the fixed set of fruit
 * names and keeps the suggestion set equal to the fruits that contain the
 * typed text, ignoring case; the key handler skips the search for empty input.
 * The page updates (list rendering, clicks, opening a browser tab) are not modelled.
 */
module FruitSearch {
  import opened Text

  /** `fruitArr`, in its source order. */
  const FruitArr: seq<string> := [
    "Apple", "Apricot", "Avocado \U{1F951}", "Banana", "Bilberry", "Blackberry", "Blackcurrant",
    "Blueberry", "Boysenberry", "Currant", "Cherry", "Coconut", "Cranberry", "Cucumber",
    "Custard apple", "Damson", "Date", "Dragonfruit", "Durian", "Elderberry", "Feijoa", "Fig",
    "Gooseberry", "Grape", "Raisin", "Grapefruit", "Guava", "Honeyberry", "Huckleberry",
    "Jabuticaba", "Jackfruit", "Jambul", "Juniper berry", "Kiwifruit", "Kumquat", "Lemon", "Lime",
    "Loquat", "Longan", "Lychee", "Mango", "Mangosteen", "Marionberry", "Melon", "Cantaloupe",
    "Honeydew", "Watermelon", "Miracle fruit", "Mulberry", "Nectarine", "Nance", "Olive", "Orange",
    "Clementine", "Mandarine", "Tangerine", "Papaya", "Passionfruit", "Peach", "Pear", "Persimmon",
    "Plantain", "Plum", "Pineapple", "Pomegranate", "Pomelo", "Quince", "Raspberry", "Salmonberry",
    "Rambutan", "Redcurrant", "Salak", "Satsuma", "Soursop", "Star fruit", "Strawberry",
    "Tamarillo", "Tamarind", "Yuzu"
  ]

  /** The test in `search`: a plain substring match, or one after lowering both sides. */
  function Guard(fruit: string, str: string): (r: bool)
    ensures str == "" ==> r
    ensures fruit == str ==> r
  {
    Includes(fruit, str) || Includes(Lower(fruit), Lower(str))
  }

  /** A case-insensitive substring match. */
  predicate Matches(fruit: string, str: string) {
    Includes(Lower(fruit), Lower(str))
  }

  /** The first half of the guard is subsumed by the second: the guard is just `Matches`. */
  lemma GuardIsMatch(fruit: string, str: string)
    ensures Guard(fruit, str) <==> Matches(fruit, str)
  {
    if Includes(fruit, str) {
      IncludesLower(fruit, str);
    }
  }

  /** The fruits that match `str`. */
  function Suggestions(fruits: set<string>, str: string): (s: set<string>)
    ensures s <= fruits
    ensures forall f :: f in fruits ==> (f in s <==> Matches(f, str))
  {
    set f | f in fruits && Matches(f, str)
  }

  /**
   * The suggestion set after `search(str)`: every fruit is re-decided, and
   * anything that is not a fruit is left as it was.
   */
  function AfterSearch(fruits: set<string>, sugg: set<string>, str: string): (r: set<string>)
    ensures r - fruits == sugg - fruits
    ensures r * fruits == Suggestions(fruits, str)
  {
    (sugg - fruits) + Suggestions(fruits, str)
  }

  class Autocomplete {
    const fruitSet: set<string>
    var suggSet: set<string>

    /** Suggestions only ever come from the fruit set. */
    ghost predicate Valid()
      reads this
    {
      suggSet <= fruitSet
    }

    /** `new Set(fruitArr)` and an empty `suggSet`. */
    constructor ()
      ensures fruitSet == set f | f in FruitArr
      ensures suggSet == {} && Valid()
    {
      fruitSet := set f | f in FruitArr;
      suggSet := {};
    }

    /** `search(str)`: add each matching fruit, delete each non-matching one that is present. */
    method Search(str: string)
      modifies this
      ensures suggSet == AfterSearch(fruitSet, old(suggSet), str)
      ensures old(Valid()) ==> Valid() && suggSet == Suggestions(fruitSet, str)
    {
      var todo := fruitSet;
      while todo != {}
        invariant todo <= fruitSet
        invariant suggSet == (old(suggSet) - (fruitSet - todo)) + Suggestions(fruitSet - todo, str)
        decreases todo
      {
        var fruit :| fruit in todo;
        GuardIsMatch(fruit, str);
        if Includes(fruit, str) || Includes(Lower(fruit), Lower(str)) {
          suggSet := suggSet + {fruit};
        } else if !Includes(fruit, str) && !Includes(Lower(fruit), Lower(str)) {
          if fruit in suggSet {
            suggSet := suggSet - {fruit};
          }
        }
        todo := todo - {fruit};
      }
    }

    /** `searchHandler`: empty input clears the list and returns before any search. */
    method SearchHandler(value: string)
      modifies this
      ensures value == "" ==> suggSet == old(suggSet)
      ensures value != "" ==> suggSet == AfterSearch(fruitSet, old(suggSet), value)
      ensures old(Valid()) ==> Valid()
    {
      if value == "" {
        return;
      }
      Search(value);
    }

    /** The Enter-key test: a search page opens only for a name in the suggestions. */
    predicate OpensSearch(key: string, value: string)
      reads this
      ensures OpensSearch(key, value) ==> key == "Enter" && value in suggSet
      ensures Valid() && OpensSearch(key, value) ==> value in fruitSet
    {
      key == "Enter" && value in suggSet
    }
  }

  /** Once suggestions come from the fruit set, earlier contents make no difference. */
  lemma SearchIgnoresPrior(fruits: set<string>, s1: set<string>, s2: set<string>, str: string)
    requires s1 <= fruits && s2 <= fruits
    ensures AfterSearch(fruits, s1, str) == AfterSearch(fruits, s2, str) == Suggestions(fruits, str)
  {
  }

  /** Searching twice for the same text is searching once. */
  lemma SearchIdempotent(fruits: set<string>, sugg: set<string>, str: string)
    ensures AfterSearch(fruits, AfterSearch(fruits, sugg, str), str) == AfterSearch(fruits, sugg, str)
  {
  }

  /** A later search overrides an earlier one entirely. */
  lemma SearchOverrides(fruits: set<string>, sugg: set<string>, a: string, b: string)
    ensures AfterSearch(fruits, AfterSearch(fruits, sugg, a), b) == AfterSearch(fruits, sugg, b)
  {
  }
}
