/** The aggregator `makeStyle`: flatten every cached atom list, drop
    repeats keeping first occurrences, compile the atoms to rules and put
    the reset text in front of the newline-joined rules. */
module Style {
  import opened Base
  import opened Text
  import opened Dedup
  import opened AtomCache
  import opened Config

  /** The atom list handed to the rule compiler. */
  function AtomsFor(c: Cache): (atoms: seq<string>)
    ensures Distinct(atoms)
    ensures forall k :: 0 <= k < |atoms| ==> exists i :: 0 <= i < |c| && atoms[k] in c[i].atoms
    ensures forall i, x :: 0 <= i < |c| && x in c[i].atoms ==> x in atoms
  {
    var flat := Flat(c);
    var u := Unique(flat);
    assert forall x :: x in flat ==> x in u by {
      forall x | x in flat
        ensures x in u
      {
        var k :| 0 <= k < |flat| && flat[k] == x;
      }
    }
    u
  }

  /** The stylesheet text: the reset, then the compiled rules one per line.
      When the compiler yields at least one rule and no rule spans lines,
      splitting what follows the reset at newlines gives the rules back. */
  function MakeStyle(env: Env, c: Cache): (css: string)
    ensures StartsWith(css, env.reset)
    ensures css[|env.reset|..] == Join(env.generateCss(AtomsFor(c)), "\n")
    ensures env.generateCss(AtomsFor(c)) == [] ==> css == env.reset
    ensures var rules := env.generateCss(AtomsFor(c));
            |rules| >= 1 && (forall i :: 0 <= i < |rules| ==> '\n' !in rules[i]) ==>
              SplitOn(css[|env.reset|..], '\n') == rules
  {
    var rules := env.generateCss(AtomsFor(c));
    var css := env.reset + Join(rules, "\n");
    assert css[..|env.reset|] == env.reset;
    assert css[|env.reset|..] == Join(rules, "\n");
    if |rules| >= 1 && (forall i :: 0 <= i < |rules| ==> '\n' !in rules[i]) then
      SplitJoin(rules, '\n');
      css
    else
      css
  }

  /** The compiled atoms are exactly the atoms some key of the cache holds,
      each of them once. */
  lemma AtomsByKey(c: Cache, x: string)
    requires UniqueFiles(c)
    ensures x in AtomsFor(c) <==> exists id :: Lookup(c, id).Some? && x in Lookup(c, id).value
    ensures multiset(AtomsFor(c))[x] == if x in AtomsFor(c) then 1 else 0
  {
    FlatByKey(c, x);
    DistinctCount(AtomsFor(c), x);
  }

  /** After `entry[id] = atoms` an atom is compiled exactly when the new
      list of `id` or the list of some other key holds it: the old list of
      `id` no longer contributes (replacement, not union). */
  lemma AtomsAfterWrite(c: Cache, id: string, atoms: seq<string>, x: string)
    requires UniqueFiles(c)
    ensures x in AtomsFor(Put(c, id, atoms)) <==>
              x in atoms || exists k :: k != id && Lookup(c, k).Some? && x in Lookup(c, k).value
  {
    var c' := Put(c, id, atoms);
    AtomsByKey(c', x);
    PutLookup(c, id, atoms, id);
    if x in AtomsFor(c') {
      var k :| Lookup(c', k).Some? && x in Lookup(c', k).value;
      PutLookup(c, id, atoms, k);
    }
    if exists k :: k != id && Lookup(c, k).Some? && x in Lookup(c, k).value {
      var k :| k != id && Lookup(c, k).Some? && x in Lookup(c, k).value;
      PutLookup(c, id, atoms, k);
    }
  }

  /** Writing the same code for a file twice leaves the stylesheet as one
      write left it. */
  lemma RepeatedWriteSameStyle(env: Env, c: Cache, id: string, atoms: seq<string>)
    requires UniqueFiles(c)
    ensures MakeStyle(env, Put(Put(c, id, atoms), id, atoms)) == MakeStyle(env, Put(c, id, atoms))
  {
    PutIdempotent(c, id, atoms);
  }

  /** Two files `a.html` (atoms `flex`, `p-4`) and `b.html` (atoms `p-4`,
      `text-red`) written into an empty cache compile `flex`, `p-4` and
      `text-red`, each once, in order of first appearance. */
  lemma TwoFileScenario()
    ensures AtomsFor(Put(Put([], "a.html", ["flex", "p-4"]), "b.html", ["p-4", "text-red"]))
            == ["flex", "p-4", "text-red"]
  {
    var a: seq<string> := ["flex", "p-4"];
    var b: seq<string> := ["p-4", "text-red"];
    var c1 := Put([], "a.html", a);
    assert c1 == [Slot("a.html", a)];
    assert Lookup(c1, "b.html").None?;
    var c := Put(c1, "b.html", b);
    assert c == [Slot("a.html", a), Slot("b.html", b)];
    assert Flat(c) == a + b by {
      assert Flat(c[1..][1..]) == [];
      assert c[1..] == [Slot("b.html", b)];
    }
    FlatOfPair(a, b);
  }

  /** The deduplicated flattening of the two lists of the scenario. */
  lemma FlatOfPair(a: seq<string>, b: seq<string>)
    requires a == ["flex", "p-4"] && b == ["p-4", "text-red"]
    ensures Unique(a + b) == ["flex", "p-4", "text-red"]
  {
    assert a + b == ["flex", "p-4", "p-4", "text-red"];
    UniqueOfShared("flex", "p-4", "text-red");
  }

  /** Four atoms where only the middle one repeats deduplicate to three. */
  lemma UniqueOfShared(x: string, y: string, z: string)
    requires x != y && y != z && x != z
    ensures Unique([x, y, y, z]) == [x, y, z]
  {
    RepeatedSecond(x, y);
    UniqueSnoc([x, y, y], z);
    assert [x, y, y, z] == [x, y, y] + [z];
  }

  /** Two distinct atoms with the second repeated deduplicate to both. */
  lemma RepeatedSecond(x: string, y: string)
    requires x != y
    ensures Unique([x, y, y]) == [x, y]
  {
    UniqueOfDistinct([x, y]);
    UniqueSnoc([x, y], y);
    assert [x, y, y] == [x, y] + [y];
  }
}
