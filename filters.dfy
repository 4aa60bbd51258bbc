/** The four searches of the tool finder: by type, free tools, by tag, and
    the keyword ("smart") search over all of a tool's text. Each keeps the
    tools of the database that pass one test, in database order. */
module Filters {
  import opened Wrappers
  import opened Text
  import opened Catalog

  /** The test a search applies to one tool. Search terms arrive here
      already lowercased, as the menu functions lowercase their input. */
  datatype Query =
    | TypeContains(term: string)
    | PriceIsZero
    | HasTag(term: string)
    | AllWords(words: set<string>)

  /** The text smart search looks through: name, type, developer and the
      tags, each separated by one blank, lowercased. */
  function SearchText(t: Tool): string {
    Lower(t.name + " " + t.kind + " " + t.developer + " " + Join(t.tags, " "))
  }

  predicate Matches(q: Query, t: Tool) {
    match q
    case TypeContains(term) => Contains(Lower(t.kind), term)
    case PriceIsZero => t.price == 0
    case HasTag(term) => term in t.tags
    case AllWords(words) => forall w :: w in words ==> Contains(SearchText(t), w)
  }

  /** The tools of db that q keeps, in db order. */
  function Select(db: seq<Tool>, q: Query): (r: seq<Tool>)
    ensures |r| <= |db|
  {
    if db == [] then [] else Kept(q, db[0]) + Select(db[1..], q)
  }

  /** The part of a search's result that one tool contributes. */
  function Kept(q: Query, t: Tool): (r: seq<Tool>)
    ensures r == [] || r == [t]
  {
    if Matches(q, t) then [t] else []
  }

  /** r is s with some elements left out and the rest in their order. */
  predicate IsSubsequence<T(==)>(r: seq<T>, s: seq<T>)
    decreases |s|
  {
    r == [] || (s != [] && ((r[0] == s[0] && IsSubsequence(r[1..], s[1..])) || IsSubsequence(r, s[1..])))
  }

  // ---------------------------------------------------------------------
  // What any search returns

  /** A search keeps database order. */
  lemma {:induction false} SelectSubsequence(db: seq<Tool>, q: Query)
    ensures IsSubsequence(Select(db, q), db)
    decreases |db|
  {
    if db != [] {
      SelectSubsequence(db[1..], q);
      var rest := Select(db[1..], q);
      if Matches(q, db[0]) {
        var r := [db[0]] + rest;
        assert Select(db, q) == r;
        assert r[1..] == rest;
      } else {
        assert Select(db, q) == rest;
      }
    }
  }

  /** A tool the test keeps appears as often as in the database; any other
      tool does not appear. */
  lemma {:induction false} SelectCount(db: seq<Tool>, q: Query, t: Tool)
    ensures multiset(Select(db, q))[t] == if Matches(q, t) then multiset(db)[t] else 0
    decreases |db|
  {
    if db != [] {
      SelectCount(db[1..], q, t);
      assert db == [db[0]] + db[1..];
      assert multiset(Select(db, q)) == multiset(Kept(q, db[0])) + multiset(Select(db[1..], q));
    }
  }

  /** The result holds exactly the database's tools that pass the test. */
  lemma SelectMembers(db: seq<Tool>, q: Query)
    ensures forall t :: t in Select(db, q) <==> t in db && Matches(q, t)
  {
    forall t ensures t in Select(db, q) <==> t in db && Matches(q, t) {
      SelectCount(db, q, t);
    }
  }

  /** Searching two parts of a database and putting the results together is
      searching the whole of it. */
  lemma {:induction false} SelectConcat(a: seq<Tool>, b: seq<Tool>, q: Query)
    ensures Select(a + b, q) == Select(a, q) + Select(b, q)
    decreases |a|
  {
    if a == [] {
      assert a + b == b;
    } else {
      calc {
        Select(a + b, q);
        { FrontSplit(a, b); SelectCons(a[0], a[1..] + b, q); }
        Kept(q, a[0]) + Select(a[1..] + b, q);
        { SelectConcat(a[1..], b, q); }
        Kept(q, a[0]) + (Select(a[1..], q) + Select(b, q));
        (Kept(q, a[0]) + Select(a[1..], q)) + Select(b, q);
        Select(a, q) + Select(b, q);
      }
    }
  }

  /** A non-empty first part: its front tool, then the rest of both parts. */
  lemma FrontSplit(a: seq<Tool>, b: seq<Tool>)
    requires a != []
    ensures a + b == [a[0]] + (a[1..] + b)
  {
  }

  /** A search of a database with a tool at its front. */
  lemma SelectCons(t: Tool, rest: seq<Tool>, q: Query)
    ensures Select([t] + rest, q) == Kept(q, t) + Select(rest, q)
  {
    assert ([t] + rest)[1..] == rest;
  }

  /** One more tool of the database: the loop step of a search. */
  lemma SelectSnoc(db: seq<Tool>, i: nat, q: Query)
    requires i < |db|
    ensures Select(db[..i + 1], q) == Select(db[..i], q) + (if Matches(q, db[i]) then [db[i]] else [])
  {
    assert db[..i + 1] == db[..i] + [db[i]];
    SelectConcat(db[..i], [db[i]], q);
    assert [db[i]][1..] == [];
  }

  /** When every tool passes, the search returns the database unchanged. */
  lemma {:induction false} SelectAll(db: seq<Tool>, q: Query)
    requires forall k :: 0 <= k < |db| ==> Matches(q, db[k])
    ensures Select(db, q) == db
    decreases |db|
  {
    if db != [] {
      SelectAll(db[1..], q);
      assert db == [db[0]] + db[1..];
    }
  }

  /** A stricter test gives the looser test's result searched once more. */
  lemma {:induction false} SelectNarrower(db: seq<Tool>, strict: Query, loose: Query)
    requires forall t :: Matches(strict, t) ==> Matches(loose, t)
    ensures Select(Select(db, loose), strict) == Select(db, strict)
    decreases |db|
  {
    if db != [] {
      SelectNarrower(db[1..], strict, loose);
      var rest := Select(db[1..], loose);
      if Matches(loose, db[0]) {
        assert Select(db, loose) == [db[0]] + rest;
        assert ([db[0]] + rest)[1..] == rest;
      } else {
        assert Select(db, loose) == rest;
      }
    }
  }

  // ---------------------------------------------------------------------
  // Search by type, free tools, search by tag

  /** Tools whose type contains the search term, ignoring case. */
  function SearchByType(db: seq<Tool>, term: string): seq<Tool> {
    Select(db, TypeContains(Lower(term)))
  }

  /** Tools whose price is zero. */
  function FindFreePlugins(db: seq<Tool>): seq<Tool> {
    Select(db, PriceIsZero)
  }

  /** Tools with a tag equal to the lowercased search term. */
  function FindByTag(db: seq<Tool>, term: string): seq<Tool> {
    Select(db, HasTag(Lower(term)))
  }

  lemma SearchByTypeSpec(db: seq<Tool>, term: string)
    ensures forall t :: t in SearchByType(db, term) <==>
      t in db && Contains(Lower(t.kind), Lower(term))
    ensures IsSubsequence(SearchByType(db, term), db)
  {
    SelectMembers(db, TypeContains(Lower(term)));
    SelectSubsequence(db, TypeContains(Lower(term)));
  }

  /** The search is by substring after lowercasing both sides: a tool is
      found by any term that differs only in letter case from a text in its
      type. */
  lemma SearchByTypeFinds(db: seq<Tool>, term: string, t: Tool, u: string)
    requires t in db && Contains(t.kind, u) && Lower(u) == Lower(term)
    ensures t in SearchByType(db, term)
  {
    ContainsLower(t.kind, u);
    SelectMembers(db, TypeContains(Lower(term)));
  }

  /** The term "eq" finds a tool of type "EQ". */
  lemma SearchByTypeIgnoresCase(t: Tool)
    requires t.kind == "EQ"
    ensures SearchByType([t], "eq") == [t]
  {
    assert Lower("EQ") == "eq";
    assert Lower("eq") == "eq";
    assert StartsWith("eq", "eq");
    assert [t][1..] == [];
  }

  /** The empty term is in every type: every tool is found. */
  lemma SearchByTypeEmpty(db: seq<Tool>)
    ensures SearchByType(db, "") == db
  {
    forall k | 0 <= k < |db| ensures Matches(TypeContains(Lower("")), db[k]) {
      assert StartsWith(Lower(db[k].kind), []);
    }
    SelectAll(db, TypeContains(Lower("")));
  }

  lemma FindFreePluginsSpec(db: seq<Tool>)
    ensures forall t :: multiset(FindFreePlugins(db))[t] == if t.price == 0 then multiset(db)[t] else 0
    ensures forall t :: t in FindFreePlugins(db) <==> t in db && t.price == 0
    ensures IsSubsequence(FindFreePlugins(db), db)
  {
    forall t ensures multiset(FindFreePlugins(db))[t] == if t.price == 0 then multiset(db)[t] else 0 {
      SelectCount(db, PriceIsZero, t);
    }
    SelectMembers(db, PriceIsZero);
    SelectSubsequence(db, PriceIsZero);
  }

  lemma FindByTagSpec(db: seq<Tool>, term: string)
    ensures forall t :: t in FindByTag(db, term) <==>
      t in db && exists k :: 0 <= k < |t.tags| && t.tags[k] == Lower(term)
    ensures IsSubsequence(FindByTag(db, term), db)
  {
    SelectMembers(db, HasTag(Lower(term)));
    SelectSubsequence(db, HasTag(Lower(term)));
  }

  predicate HasUpper(s: string) {
    exists j :: 0 <= j < |s| && IsUpper(s[j])
  }

  /** Tags are compared as stored: a tool whose every tag has a capital
      letter is found by no term at all, not even the tag itself. */
  lemma FindByTagMissesCapitals(db: seq<Tool>, term: string, t: Tool)
    requires forall k :: 0 <= k < |t.tags| ==> HasUpper(t.tags[k])
    ensures t !in FindByTag(db, term)
  {
    SelectMembers(db, HasTag(Lower(term)));
  }

  // ---------------------------------------------------------------------
  // Smart search

  /** The distinct words of an already lowercased query. */
  function QueryWords(q: string): set<string> {
    set w | w in Words(q)
  }

  /** None when the query is empty (the search ends); otherwise the tools
      whose search text contains every word of the lowercased query. */
  function SmartSearchResult(db: seq<Tool>, query: string): Option<seq<Tool>> {
    var q := Lower(query);
    if q == [] then None else Some(Select(db, AllWords(QueryWords(q))))
  }

  /** One round of smart search: lowercase the query, stop on an empty one,
      and walk the database keeping the tools that contain every word. */
  method SmartSearch(db: seq<Tool>, query: string) returns (r: Option<seq<Tool>>)
    ensures r == SmartSearchResult(db, query)
  {
    var q := Lower(query);
    if q == [] {
      return None;
    }
    var words := QueryWords(q);
    var found: seq<Tool> := [];
    var i := 0;
    while i < |db|
      invariant 0 <= i <= |db|
      invariant found == Select(db[..i], AllWords(words))
    {
      var text := SearchText(db[i]);
      SelectSnoc(db, i, AllWords(words));
      if forall w :: w in words ==> Contains(text, w) {
        found := found + [db[i]];
      }
      i := i + 1;
    }
    assert db[..i] == db;
    return Some(found);
  }

  /** Only the empty query ends the search. */
  lemma SmartSearchCancels(db: seq<Tool>, query: string)
    ensures SmartSearchResult(db, query).None? <==> query == []
  {
  }

  /** The match rule: every word of the lowercased query, taken from left
      to right, is in the tool's search text; database order is kept. */
  lemma SmartSearchSpec(db: seq<Tool>, query: string)
    requires query != []
    ensures SmartSearchResult(db, query).Some?
    ensures forall t :: t in SmartSearchResult(db, query).value <==>
      t in db && forall k :: 0 <= k < |Words(Lower(query))| ==> Contains(SearchText(t), Words(Lower(query))[k])
    ensures IsSubsequence(SmartSearchResult(db, query).value, db)
  {
    var q := Lower(query);
    var ws := Words(q);
    var words := QueryWords(q);
    var sel := Select(db, AllWords(words));
    assert SmartSearchResult(db, query).value == sel;
    SelectMembers(db, AllWords(words));
    SelectSubsequence(db, AllWords(words));
    forall t ensures t in SmartSearchResult(db, query).value <==>
      t in db && forall k :: 0 <= k < |Words(Lower(query))| ==> Contains(SearchText(t), Words(Lower(query))[k])
    {
      WordsMatch(ws, words, t);
      assert t in sel <==> t in db && Matches(AllWords(words), t);
      assert ws == Words(Lower(query));
    }
  }

  /** Containing every word of a set built from a word list is containing
      every entry of the list. */
  lemma WordsMatch(ws: seq<string>, words: set<string>, t: Tool)
    requires words == set w | w in ws
    ensures Matches(AllWords(words), t) <==> forall k :: 0 <= k < |ws| ==> Contains(SearchText(t), ws[k])
  {
    if forall k :: 0 <= k < |ws| ==> Contains(SearchText(t), ws[k]) {
      forall w | w in words ensures Contains(SearchText(t), w) {
        var k :| 0 <= k < |ws| && ws[k] == w;
      }
    }
    if Matches(AllWords(words), t) {
      forall k | 0 <= k < |ws| ensures Contains(SearchText(t), ws[k]) {
        assert ws[k] in words;
      }
    }
  }

  /** A query of blanks only is not empty, has no words, and finds every tool. */
  lemma SmartSearchBlank(db: seq<Tool>, query: string)
    requires query != [] && AllSpace(query)
    ensures SmartSearchResult(db, query) == Some(db)
  {
    var q := Lower(query);
    LowerKeepsSpace(query);
    assert AllSpace(q);
    WordsShape(q);
    assert QueryWords(q) == {};
    SelectAll(db, AllWords({}));
  }

  /** Joining two queries with a blank joins their word sets. */
  lemma QueryWordsJoin(a: string, b: string)
    ensures QueryWords(Lower(a + " " + b)) == QueryWords(Lower(a)) + QueryWords(Lower(b))
  {
    LowerConcat(a + " ", b);
    LowerConcat(a, " ");
    assert Lower(" ") == [' '];
    WordsConcat(Lower(a), ' ', Lower(b));
    assert Lower(a + " " + b) == Lower(a) + [' '] + Lower(b);
  }

  /** The order of the words does not matter. */
  lemma SmartSearchWordOrder(db: seq<Tool>, a: string, b: string)
    ensures SmartSearchResult(db, a + " " + b) == SmartSearchResult(db, b + " " + a)
  {
    QueryWordsJoin(a, b);
    QueryWordsJoin(b, a);
    assert QueryWords(Lower(a)) + QueryWords(Lower(b)) == QueryWords(Lower(b)) + QueryWords(Lower(a));
  }

  /** Repeating a word does not matter. */
  lemma SmartSearchRepeat(db: seq<Tool>, a: string)
    requires a != []
    ensures SmartSearchResult(db, a + " " + a) == SmartSearchResult(db, a)
  {
    QueryWordsJoin(a, a);
    assert QueryWords(Lower(a)) + QueryWords(Lower(a)) == QueryWords(Lower(a));
  }

  /** More words find fewer tools: the longer query's result is the shorter
      query's result searched once more, so it is a subsequence of it. */
  lemma SmartSearchNarrows(db: seq<Tool>, a: string, b: string)
    requires a != []
    ensures SmartSearchResult(db, a + " " + b).Some? && SmartSearchResult(db, a).Some?
    ensures var more := SmartSearchResult(db, a + " " + b).value;
            var fewer := SmartSearchResult(db, a).value;
            more == Select(fewer, AllWords(QueryWords(Lower(a + " " + b)))) && IsSubsequence(more, fewer)
  {
    QueryWordsJoin(a, b);
    var strict := AllWords(QueryWords(Lower(a + " " + b)));
    var loose := AllWords(QueryWords(Lower(a)));
    SelectNarrower(db, strict, loose);
    SelectSubsequence(Select(db, loose), strict);
  }

  /** A tool that a one-word term finds by tag, smart search finds too. */
  lemma TagHitIsSmartHit(db: seq<Tool>, term: string, t: Tool)
    requires term != [] && NoSpace(term)
    requires t in FindByTag(db, term)
    ensures SmartSearchResult(db, term).Some? && t in SmartSearchResult(db, term).value
  {
    var w := Lower(term);
    SelectMembers(db, HasTag(w));
    var k :| 0 <= k < |t.tags| && t.tags[k] == w;
    ContainsPiece(t.tags, " ", k);
    ContainsInRight(t.name + " " + t.kind + " " + t.developer + " ", Join(t.tags, " "), w);
    ContainsLower(t.name + " " + t.kind + " " + t.developer + " " + Join(t.tags, " "), w);
    LowerIdempotent(term);
    LowerKeepsSpace(term);
    WordsOfWord(w);
    assert QueryWords(w) == {w};
    SelectMembers(db, AllWords({w}));
  }

  /** The price never enters smart search: a word such as "free" is looked
      for in the text like any other, so a free tool whose text lacks it is
      not found. */
  lemma SmartSearchNeedsEveryWord(db: seq<Tool>, query: string, t: Tool, w: string)
    requires w in Words(Lower(query)) && !Contains(SearchText(t), w)
    ensures SmartSearchResult(db, query).Some? && t !in SmartSearchResult(db, query).value
  {
    SelectMembers(db, AllWords(QueryWords(Lower(query))));
  }
}
