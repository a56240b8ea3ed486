/**
 * Concrete scenarios of the catalog viewer, each checked against the model.
 */
module Scenarios {
  import opened Wrappers
  import opened Listing
  import opened SearchFilter
  import Pager
  import Detail
  import Trivia

  /** Filtering a one-entry listing keeps the entry exactly when it matches. */
  lemma FilterSingle(x: Summary, needle: string)
    ensures Filter([x], needle) == if Matches(x, needle) then [x] else []
  {
    assert [x][1..] == [];
  }

  /** Of two entries where only the first matches, the filter keeps the first. */
  lemma FilterFirstOfTwo(a: Summary, b: Summary, needle: string)
    requires Matches(a, needle) && !Matches(b, needle)
    ensures Filter([a, b], needle) == [a]
  {
    FilterSingle(a, needle);
    FilterSingle(b, needle);
    FilterAppend([a], [b], needle);
    assert [a] + [b] == [a, b];
  }

  /** Of four entries where only the first and third match, the filter keeps those two. */
  lemma FilterFirstAndThird(a: Summary, b: Summary, c: Summary, d: Summary, needle: string)
    requires Matches(a, needle) && !Matches(b, needle) && Matches(c, needle) && !Matches(d, needle)
    ensures Filter([a, b, c, d], needle) == [a, c]
  {
    FilterFirstOfTwo(a, b, needle);
    FilterFirstOfTwo(c, d, needle);
    FilterAppend([a, b], [c, d], needle);
    assert [a, b] + [c, d] == [a, b, c, d];
  }

  /** The query "char" keeps charmander and charizard, in that order. */
  lemma SearchExample(a: Summary, b: Summary, c: Summary, d: Summary)
    requires a.name == "charmander" && b.name == "bulbasaur"
    requires c.name == "charizard" && d.name == "squirtle"
    ensures SearchView([a, b, c, d], "char") == [a, c]
  {
    var needle := "char";
    LowerOfLowercase(needle);
    assert Matches(a, needle) by { StartsWith(a.name, needle); }
    assert !Matches(b, needle) by { LacksFirstChar(b.name, needle); }
    assert Matches(c, needle) by { StartsWith(c.name, needle); }
    assert !Matches(d, needle) by { LacksFirstChar(d.name, needle); }
    FilterFirstAndThird(a, b, c, d, needle);
  }

  /** The query is lower-cased: "Char" finds "charmander". */
  lemma QueryIsLowerCased()
    ensures SearchView([Summary("charmander", "1")], "Char") == [Summary("charmander", "1")]
  {
    var x := Summary("charmander", "1");
    assert ToLower("Char") == "char";
    StartsWith(x.name, "char");
    FilterSingle(x, "char");
    assert SearchView([x], "Char") == Filter([x], ToLower("Char"));
  }

  /** The name is not lower-cased: "char" does not find "Charmander". */
  lemma NameIsNotLowerCased()
    ensures SearchView([Summary("Charmander", "1")], "char") == []
  {
    var x := Summary("Charmander", "1");
    LowerOfLowercase("char");
    LacksFirstChar(x.name, "char");
    FilterSingle(x, "char");
    assert SearchView([x], "char") == Filter([x], ToLower("char"));
  }

  /** 50 entries make 3 pages, and page 3 holds the entries 48 and 49. */
  lemma FiftyEntries<T>(view: seq<T>)
    requires |view| == 50
    ensures Pager.TotalPages(|view|) == 3
    ensures Pager.Window(view, 3) == view[48..50]
    ensures Pager.Window(view, 1) == view[0..24] && Pager.Window(view, 2) == view[24..48]
  {
  }

  /** The listing's URL for entry 25 yields the id "25". */
  lemma ExtractIdExample()
    ensures ExtractId("https://pokeapi.co/api/v2/pokemon/25/") == Some("25")
  {
    ExtractIdOfDetailUrl("https://pokeapi.co/api/v2/pokemon", "25");
    assert "https://pokeapi.co/api/v2/pokemon" + [SEPARATOR] + "25" + [SEPARATOR]
        == "https://pokeapi.co/api/v2/pokemon/25/";
  }

  /** The stats [39, 52, 43, 60, 50, 65] give hp 39, atk 52, def 43 and spd 65. */
  lemma StatsExample(raw: Detail.RawDetail)
    requires raw.sprites.Animated?
    requires raw.stats == [Detail.StatSlot(39), Detail.StatSlot(52), Detail.StatSlot(43),
                           Detail.StatSlot(60), Detail.StatSlot(50), Detail.StatSlot(65)]
    ensures Detail.Normalize(raw).Some?
    ensures var d := Detail.Normalize(raw).value;
      d.hp == 39 && d.atk == 52 && d.def == 43 && d.spd == 65
  {
  }

  /** A fire type first gives the fire colour; no types give white. */
  lemma ColorExample(raw: Detail.RawDetail)
    requires Detail.Normalize(raw).Some?
    ensures raw.types == [Detail.TypeSlot("fire"), Detail.TypeSlot("flying")] ==>
      Detail.Normalize(raw).value.backgroundColor == Some("#F08030")
    ensures raw.types == [] ==> Detail.Normalize(raw).value.backgroundColor == Some("#ffffff")
  {
    Detail.NormalizeSpec(raw);
  }

  /** A server error (a body without `choices`) and a transport failure both show the fallback. */
  lemma ServerErrorShowsFallback()
    ensures Trivia.SelectTrivia(Trivia.Body(None)) == Trivia.FALLBACK
    ensures Trivia.SelectTrivia(Trivia.Failed) == Trivia.FALLBACK
    ensures Trivia.SelectTrivia(Trivia.Body(Some([]))) == Trivia.FALLBACK
    ensures Trivia.SelectTrivia(Trivia.Body(Some([Trivia.Choice(Some(""))]))) == Trivia.FALLBACK
  {
  }
}
