/** Flattening of default-cell-style inheritance. Every column or row that names a
    default cell style contributes a (child, parent) pair: the column or row style is the
    child, the default cell style its parent. Round by round, each parent that is not
    itself a child in the remaining pairs is merged into its children, the child's own
    properties winning, and those pairs are dropped. */
module Inheritance {
  import opened Base
  import opened Styles

  /** A (child, parent) pair of style names. */
  type Relation = (string, string)

  function Children(rel: seq<Relation>): set<string>
  {
    set x | x in rel :: x.0
  }

  function Parents(rel: seq<Relation>): set<string>
  {
    set x | x in rel :: x.1
  }

  /** The parents of a round: named as parents but never as children. */
  function Independent(rel: seq<Relation>): (d: set<string>)
    ensures forall x :: x in rel ==> x.0 !in d
  {
    Parents(rel) - Children(rel)
  }

  /** The pairs a round leaves behind: those whose parent is not one of its parents. */
  function Remaining(rel: seq<Relation>, parents: set<string>): (r: seq<Relation>)
    ensures |r| <= |rel|
  {
    if rel == [] then []
    else
      var x := rel[|rel| - 1];
      Remaining(rel[..|rel| - 1], parents) + (if x.1 in parents then [] else [x])
  }

  /** The remaining pairs are exactly those whose parent is not one of the round's. */
  lemma {:induction false} RemainingMembers(rel: seq<Relation>, parents: set<string>)
    ensures forall x :: x in Remaining(rel, parents) <==> x in rel && x.1 !in parents
  {
    if rel != [] {
      var init := rel[..|rel| - 1];
      RemainingMembers(init, parents);
      assert forall x :: x in rel <==> x in init || x == rel[|rel| - 1];
    }
  }

  /** Python's `list.remove(x)`: the list without the first element equal to x. */
  function RemoveFirst(s: seq<Relation>, x: Relation): (r: seq<Relation>)
    requires x in s
    ensures |r| == |s| - 1
  {
    if s[0] == x then s[1..] else [s[0]] + RemoveFirst(s[1..], x)
  }

  /** Removing an element that does not occur before a given position removes exactly
      that occurrence. */
  lemma {:induction false} RemoveFirstAt(a: seq<Relation>, x: Relation, b: seq<Relation>)
    requires x !in a
    ensures RemoveFirst(a + [x] + b, x) == a + b
  {
    if a != [] {
      var s := a + [x] + b;
      assert s[0] == a[0] && a[0] in a;
      assert s[1..] == a[1..] + [x] + b;
      assert a == [a[0]] + a[1..];
      RemoveFirstAt(a[1..], x, b);
      assert [a[0]] + (a[1..] + b) == a + b;
    } else {
      assert a + [x] + b == [x] + b;
    }
  }

  /** One round of the inheritance loop over a list of pairs, in order: a pair whose
      parent is among the round's parents merges the parent into the child. Looking up a
      name that is not in the table raises KeyError, the child being looked up first. */
  function MergeRound(styles: map<string, Style>, pairs: seq<Relation>, parents: set<string>): Result<map<string, Style>>
  {
    if pairs == [] then Ok(styles)
    else
      var (child, parent) := pairs[0];
      if parent !in parents then MergeRound(styles, pairs[1..], parents)
      else if child !in styles then Err(KeyError(child))
      else if parent !in styles then Err(KeyError(parent))
      else MergeRound(styles[child := styles[parent] + styles[child]], pairs[1..], parents)
  }

  /** The pairs can be worked off round by round: every round has parents to merge, so
      the list shrinks until it is empty. */
  predicate Resolvable(rel: seq<Relation>)
    decreases |rel|
  {
    if rel == [] then true
    else if Independent(rel) == {} then false
    else
      RoundShrinks(rel);
      Resolvable(Remaining(rel, Independent(rel)))
  }

  /** A round with parents to merge drops at least one pair. */
  lemma RoundShrinks(rel: seq<Relation>)
    requires Independent(rel) != {}
    ensures |Remaining(rel, Independent(rel))| < |rel|
  {
    var p :| p in Independent(rel);
    var x :| x in rel && x.1 == p;
    RemainingShorter(rel, Independent(rel), x);
  }

  lemma {:induction false} RemainingShorter(rel: seq<Relation>, parents: set<string>, x: Relation)
    requires x in rel && x.1 in parents
    ensures |Remaining(rel, parents)| < |rel|
  {
    var init := rel[..|rel| - 1];
    if rel[|rel| - 1] != x {
      assert x in init by { var i :| 0 <= i < |rel| && rel[i] == x; assert init[i] == x; }
      RemainingShorter(init, parents, x);
    }
  }

  /** The style table after the whole inheritance loop. */
  function Resolve(styles: map<string, Style>, rel: seq<Relation>): Result<map<string, Style>>
    requires Resolvable(rel)
    decreases |rel|
  {
    if rel == [] then Ok(styles)
    else
      var parents := Independent(rel);
      RoundShrinks(rel);
      var next :- MergeRound(styles, rel, parents);
      Resolve(next, Remaining(rel, parents))
  }

  /** The inheritance loop: while pairs are left, merge every pair whose parent is
      independent and drop it from the list. */
  method ResolveInheritance(styles0: map<string, Style>, related: seq<Relation>) returns (r: Result<map<string, Style>>)
    requires Resolvable(related)
    ensures r == Resolve(styles0, related)
  {
    var styles := styles0;
    var rel := related;
    while |rel| > 0
      invariant Resolvable(rel)
      invariant Resolve(styles0, related) == Resolve(styles, rel)
      decreases |rel|
    {
      var merged, left := MergeIndependent(styles, rel);
      if merged.Err? {
        ResolveRoundFails(styles, rel, merged.error);
        return merged;
      }
      ResolveRound(styles, rel, merged.value);
      styles, rel := merged.value, left;
    }
    return Ok(styles);
  }

  /** One round of the loop: walk a copy of the pairs; each pair whose parent is one of
      the round's independent parents merges that parent into its child and is removed
      from the list. */
  method MergeIndependent(styles0: map<string, Style>, rel0: seq<Relation>) returns (merged: Result<map<string, Style>>, rel: seq<Relation>)
    ensures merged == MergeRound(styles0, rel0, Independent(rel0))
    ensures merged.Ok? ==> rel == Remaining(rel0, Independent(rel0))
  {
    var styles := styles0;
    rel := rel0;
    var parents := Independent(rel);
    var copy := rel;
    WalkStart(copy, parents);
    for j := 0 to |copy|
      invariant rel == Remaining(copy[..j], parents) + copy[j..]
      invariant MergeRound(styles0, copy, parents) == MergeRound(styles, copy[j..], parents)
    {
      var next, left := VisitPair(styles, rel, copy, j, parents);
      if next.Err? {
        return next, rel;
      }
      styles, rel := next.value, left;
    }
    WalkEnd(copy, styles, parents);
    return Ok(styles), rel;
  }

  lemma WalkStart(copy: seq<Relation>, parents: set<string>)
    ensures Remaining(copy[..0], parents) + copy[0..] == copy
  {
    assert copy[..0] == [] && copy[0..] == copy;
  }

  lemma WalkEnd(copy: seq<Relation>, styles: map<string, Style>, parents: set<string>)
    ensures Remaining(copy[..|copy|], parents) + copy[|copy|..] == Remaining(copy, parents)
    ensures MergeRound(styles, copy[|copy|..], parents) == Ok(styles)
  {
    assert copy[..|copy|] == copy && copy[|copy|..] == [];
  }

  /** The body of the round's walk for its j-th pair: merge the pair when its parent is
      independent, raising KeyError for a style the table lacks, and remove it from the
      list; leave any other pair in place. */
  method VisitPair(styles: map<string, Style>, rel: seq<Relation>, copy: seq<Relation>, j: nat, parents: set<string>)
    returns (next: Result<map<string, Style>>, left: seq<Relation>)
    requires j < |copy| && rel == Remaining(copy[..j], parents) + copy[j..]
    ensures next.Err? ==> next == MergeRound(styles, copy[j..], parents)
    ensures next.Ok? ==> MergeRound(styles, copy[j..], parents) == MergeRound(next.value, copy[j + 1..], parents)
    ensures next.Ok? ==> left == Remaining(copy[..j + 1], parents) + copy[j + 1..]
  {
    var relation := copy[j];
    var child, parent := relation.0, relation.1;
    MergeRoundStep(styles, copy, j, parents);
    if parent in parents {
      if child !in styles {
        return Err(KeyError(child)), rel;
      }
      if parent !in styles {
        return Err(KeyError(parent)), rel;
      }
      DropStep(copy, j, parents);
      return Ok(styles[child := styles[parent] + styles[child]]), RemoveFirst(rel, relation);
    } else {
      KeepStep(copy, j, parents);
      return Ok(styles), rel;
    }
  }

  /** MergeRound from the j-th pair on, one pair at a time. */
  lemma MergeRoundStep(styles: map<string, Style>, pairs: seq<Relation>, j: nat, parents: set<string>)
    requires j < |pairs|
    ensures var (child, parent) := pairs[j];
      MergeRound(styles, pairs[j..], parents) ==
        if parent !in parents then MergeRound(styles, pairs[j + 1..], parents)
        else if child !in styles then Err(KeyError(child))
        else if parent !in styles then Err(KeyError(parent))
        else MergeRound(styles[child := styles[parent] + styles[child]], pairs[j + 1..], parents)
  {
    assert pairs[j..][1..] == pairs[j + 1..];
  }

  /** The list the loop holds while it walks the round's copy: the pairs already kept,
      then those not yet visited. A visited pair whose parent is not independent stays. */
  lemma KeepStep(copy: seq<Relation>, j: nat, parents: set<string>)
    requires j < |copy| && copy[j].1 !in parents
    ensures Remaining(copy[..j], parents) + copy[j..] == Remaining(copy[..j + 1], parents) + copy[j + 1..]
  {
    assert copy[..j + 1][..j] == copy[..j];
    assert copy[j..] == [copy[j]] + copy[j + 1..];
  }

  /** A visited pair whose parent is independent is removed from the list. */
  lemma DropStep(copy: seq<Relation>, j: nat, parents: set<string>)
    requires j < |copy| && copy[j].1 in parents
    ensures copy[j] in Remaining(copy[..j], parents) + copy[j..]
    ensures RemoveFirst(Remaining(copy[..j], parents) + copy[j..], copy[j]) ==
      Remaining(copy[..j + 1], parents) + copy[j + 1..]
  {
    var kept := Remaining(copy[..j], parents);
    assert copy[..j + 1][..j] == copy[..j];
    assert Remaining(copy[..j + 1], parents) == kept + [] == kept;
    RemainingMembers(copy[..j], parents);
    assert kept + copy[j..] == kept + [copy[j]] + copy[j + 1..];
    assert (kept + copy[j..])[|kept|] == copy[j];
    RemoveFirstAt(kept, copy[j], copy[j + 1..]);
  }

  /** A round that merges without error leaves the rest of the loop to the remaining
      pairs. */
  lemma ResolveRound(styles: map<string, Style>, rel: seq<Relation>, next: map<string, Style>)
    requires rel != [] && Resolvable(rel)
    requires MergeRound(styles, rel, Independent(rel)) == Ok(next)
    ensures Resolvable(Remaining(rel, Independent(rel)))
    ensures |Remaining(rel, Independent(rel))| < |rel|
    ensures Resolve(styles, rel) == Resolve(next, Remaining(rel, Independent(rel)))
  {
    RoundShrinks(rel);
  }

  /** A round that raises makes the whole loop raise the same error. */
  lemma ResolveRoundFails(styles: map<string, Style>, rel: seq<Relation>, e: Error)
    requires rel != [] && Resolvable(rel)
    requires MergeRound(styles, rel, Independent(rel)) == Err(e)
    ensures Resolve(styles, rel) == Err(e)
  {
  }

  /** What one round does to the table, given that no child of the round is one of its
      parents: every name keeps its own properties, each merged child gains its parent's
      keys, and names that are not merged children are unchanged. */
  lemma {:induction false} MergeRoundFacts(styles: map<string, Style>, pairs: seq<Relation>, parents: set<string>)
    requires forall x :: x in pairs ==> x.0 !in parents
    requires MergeRound(styles, pairs, parents).Ok?
    ensures var s := MergeRound(styles, pairs, parents).value;
      && s.Keys == styles.Keys
      && (forall n :: n in styles ==> forall k :: k in styles[n] ==> k in s[n] && s[n][k] == styles[n][k])
      && (forall x :: x in pairs && x.1 in parents ==>
            x.0 in styles && x.1 in styles && styles[x.1].Keys <= s[x.0].Keys)
      && (forall n :: n in styles && (forall x :: x in pairs && x.1 in parents ==> x.0 != n) ==> s[n] == styles[n])
      && (forall p :: p in parents && p in styles ==> s[p] == styles[p])
    decreases |pairs|
  {
    if pairs != [] {
      var (child, parent) := pairs[0];
      var rest := pairs[1..];
      assert forall x :: x in rest ==> x in pairs;
      if parent !in parents {
        MergeRoundFacts(styles, rest, parents);
      } else {
        var next := styles[child := styles[parent] + styles[child]];
        MergeRoundFacts(next, rest, parents);
      }
    }
  }

  /** A child whose pairs in the round all name the same parent p, one of the round's
      parents, ends the round as p's properties overridden by its own: the merge is
      `styles[parent] | child_style`, the child's values winning. */
  lemma {:induction false} MergeRoundChild(styles: map<string, Style>, pairs: seq<Relation>, parents: set<string>, c: string, p: string)
    requires forall x :: x in pairs ==> x.0 !in parents
    requires (c, p) in pairs && p in parents
    requires forall x :: x in pairs && x.0 == c ==> x.1 == p
    requires MergeRound(styles, pairs, parents).Ok?
    ensures c in styles && p in styles
    ensures var s := MergeRound(styles, pairs, parents).value;
      c in s && s[c] == styles[p] + styles[c]
    decreases |pairs|
  {
    var (child, parent) := pairs[0];
    var rest := pairs[1..];
    assert forall x :: x in pairs <==> x == pairs[0] || x in rest;
    if parent !in parents {
      MergeRoundChild(styles, rest, parents, c, p);
    } else {
      var next := styles[child := styles[parent] + styles[child]];
      assert MergeRound(styles, pairs, parents) == MergeRound(next, rest, parents);
      if child == c {
        assert parent == p && c != p;
        if (c, p) in rest {
          MergeRoundChild(next, rest, parents, c, p);
          assert next[p] + next[c] == styles[p] + styles[c];
        } else {
          MergeRoundFacts(next, rest, parents);
        }
      } else {
        assert child != p;
        MergeRoundChild(next, rest, parents, c, p);
      }
    }
  }

  /** MergeRound fails exactly when a pair it merges names a style that is not in the
      table. */
  lemma {:induction false} MergeRoundFails(styles: map<string, Style>, pairs: seq<Relation>, parents: set<string>)
    ensures MergeRound(styles, pairs, parents).Err? <==>
      exists x :: x in pairs && x.1 in parents && (x.0 !in styles || x.1 !in styles)
    ensures MergeRound(styles, pairs, parents).Ok? ==> MergeRound(styles, pairs, parents).value.Keys == styles.Keys
    decreases |pairs|
  {
    if pairs != [] {
      var (child, parent) := pairs[0];
      var rest := pairs[1..];
      assert forall x :: x in pairs <==> x == pairs[0] || x in rest;
      if parent !in parents {
        MergeRoundFails(styles, rest, parents);
      } else if child in styles && parent in styles {
        var next := styles[child := styles[parent] + styles[child]];
        MergeRoundFails(next, rest, parents);
      }
    }
  }

  /** What the whole loop does: every style keeps its own properties, every child ends up
      with at least the keys of its parent, and a style that is nobody's child is left as
      it was. */
  lemma {:induction false} ResolveFacts(styles: map<string, Style>, rel: seq<Relation>)
    requires Resolvable(rel)
    requires Resolve(styles, rel).Ok?
    ensures var s := Resolve(styles, rel).value;
      && s.Keys == styles.Keys
      && (forall n :: n in styles ==> forall k :: k in styles[n] ==> k in s[n] && s[n][k] == styles[n][k])
      && (forall x :: x in rel ==> x.0 in styles && x.1 in styles && s[x.1].Keys <= s[x.0].Keys)
      && (forall n :: n in styles && n !in Children(rel) ==> s[n] == styles[n])
    decreases |rel|
  {
    if rel != [] {
      var parents := Independent(rel);
      var next := MergeRound(styles, rel, parents).value;
      var rest := Remaining(rel, parents);
      RoundShrinks(rel);
      RemainingMembers(rel, parents);
      RemainingChildren(rel, parents);
      MergeRoundFacts(styles, rel, parents);
      ResolveFacts(next, rest);
      var s := Resolve(styles, rel).value;
      assert s == Resolve(next, rest).value;
      forall x | x in rel
        ensures x.0 in styles && x.1 in styles && s[x.1].Keys <= s[x.0].Keys
      {
        if x.1 in parents {
          assert s[x.1] == next[x.1] == styles[x.1];
        } else {
          assert x in rest;
        }
      }
    }
  }

  /** A child all of whose pairs name the same parent p ends the whole loop as p's final
      properties overridden by its own original ones. */
  lemma {:induction false} ResolveChild(styles: map<string, Style>, rel: seq<Relation>, c: string, p: string)
    requires Resolvable(rel)
    requires Resolve(styles, rel).Ok?
    requires (c, p) in rel
    requires forall x :: x in rel && x.0 == c ==> x.1 == p
    ensures c in styles && p in styles
    ensures var s := Resolve(styles, rel).value;
      c in s && p in s && s[c] == s[p] + styles[c]
    decreases |rel|
  {
    var parents := Independent(rel);
    var next := MergeRound(styles, rel, parents).value;
    var rest := Remaining(rel, parents);
    RoundShrinks(rel);
    RemainingMembers(rel, parents);
    RemainingChildren(rel, parents);
    MergeRoundFacts(styles, rel, parents);
    ResolveFacts(next, rest);
    var s := Resolve(styles, rel).value;
    assert s == Resolve(next, rest).value;
    if p in parents {
      MergeRoundChild(styles, rel, parents, c, p);
      assert c !in Children(rest) by {
        forall x | x in rest ensures x.0 != c {
          assert x in rel && x.1 !in parents;
        }
      }
      assert p !in Children(rest) by {
        forall x | x in rest ensures x.0 != p {
          assert x in rel;
        }
      }
    } else {
      assert (c, p) in rest;
      assert forall x :: x in rest && x.0 == c ==> x.1 == p;
      ResolveChild(next, rest, c, p);
      assert next[c] == styles[c];
    }
  }

  /** The children of the remaining pairs are children of the round's pairs. */
  lemma RemainingChildren(rel: seq<Relation>, parents: set<string>)
    ensures Children(Remaining(rel, parents)) <= Children(rel)
  {
    RemainingMembers(rel, parents);
  }

  /** The loop fails exactly when some pair names a style that is not in the table. */
  lemma {:induction false} ResolveFails(styles: map<string, Style>, rel: seq<Relation>)
    requires Resolvable(rel)
    ensures Resolve(styles, rel).Err? <==> exists x :: x in rel && (x.0 !in styles || x.1 !in styles)
    decreases |rel|
  {
    if rel != [] {
      var parents := Independent(rel);
      var rest := Remaining(rel, parents);
      RoundShrinks(rel);
      RemainingMembers(rel, parents);
      MergeRoundFails(styles, rel, parents);
      if MergeRound(styles, rel, parents).Ok? {
        var next := MergeRound(styles, rel, parents).value;
        ResolveFails(next, rest);
        if exists x :: x in rel && (x.0 !in styles || x.1 !in styles) {
          var x :| x in rel && (x.0 !in styles || x.1 !in styles);
          assert x in rest;
        }
      }
    }
  }

  /** Pairs ranked so that every child ranks above its parent (an acyclic relation) are
      always worked off. */
  lemma {:induction false} RankedIsResolvable(rel: seq<Relation>, rank: map<string, nat>)
    requires forall x :: x in rel ==> x.0 in rank && x.1 in rank && rank[x.0] > rank[x.1]
    ensures Resolvable(rel)
    decreases |rel|
  {
    if rel != [] {
      var p := LowestParent(rel, rank);
      forall x | x in rel ensures x.0 != p {
        assert rank[x.0] > rank[x.1] >= rank[p];
      }
      assert p in Independent(rel);
      RoundShrinks(rel);
      RemainingMembers(rel, Independent(rel));
      RankedIsResolvable(Remaining(rel, Independent(rel)), rank);
    }
  }

  /** A parent of the lowest rank. */
  lemma {:induction false} LowestParent(rel: seq<Relation>, rank: map<string, nat>) returns (p: string)
    requires rel != []
    requires forall x :: x in rel ==> x.1 in rank
    ensures p in Parents(rel) && p in rank
    ensures forall x :: x in rel ==> rank[p] <= rank[x.1]
    decreases |rel|
  {
    if |rel| == 1 {
      p := rel[0].1;
    } else {
      var q := LowestParent(rel[1..], rank);
      assert forall x :: x in rel <==> x == rel[0] || x in rel[1..];
      p := if rank[rel[0].1] <= rank[q] then rel[0].1 else q;
    }
  }

  /** Every parent in the set of pairs is also a child in it. */
  ghost predicate Closed(cycle: set<Relation>)
  {
    var children := set y | y in cycle :: y.0;
    forall x :: x in cycle ==> x.1 in children
  }

  /** The pairs of a closed cycle survive a round: each one's parent is the child of
      another. */
  lemma CycleSurvives(rel: seq<Relation>, cycle: set<Relation>)
    requires Closed(cycle) && forall x :: x in cycle ==> x in rel
    ensures forall x :: x in cycle ==> x in Remaining(rel, Independent(rel))
  {
    var parents := Independent(rel);
    RemainingMembers(rel, parents);
    forall x | x in cycle ensures x.1 !in parents && x in Remaining(rel, parents) {
      var y :| y in cycle && y.0 == x.1;
      assert x.1 in Children(rel);
    }
  }

  /** A closed cycle of pairs is never worked off: its names are never independent, so
      its pairs survive every round. */
  lemma {:induction false} CycleIsNotResolvable(rel: seq<Relation>, cycle: set<Relation>)
    requires cycle != {} && Closed(cycle) && forall x :: x in cycle ==> x in rel
    ensures !Resolvable(rel)
    decreases |rel|
  {
    var parents := Independent(rel);
    var x :| x in cycle;
    assert rel != [];
    CycleSurvives(rel, cycle);
    if parents != {} {
      RoundShrinks(rel);
      CycleIsNotResolvable(Remaining(rel, parents), cycle);
    }
  }
}
