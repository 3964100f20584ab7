/** The parameter store: a `URLSearchParams` object, whose state is an ordered list of
    name-value pairs (WHATWG URL Standard, section 6.2, "Interface URLSearchParams"). */
module SearchParams {
  import opened Wrappers
  import Seqs

  type Pair = (string, string)

  /** The value of the first pair named `name`: what `get(name)` returns (None for null). */
  function Lookup(pairs: seq<Pair>, name: string): Option<string> {
    if pairs == [] then None
    else if pairs[0].0 == name then Some(pairs[0].1)
    else Lookup(pairs[1..], name)
  }

  /** The values of all pairs named `name`, in list order: what `getAll(name)` returns. */
  function ValuesOf(pairs: seq<Pair>, name: string): seq<string> {
    if pairs == [] then []
    else (if pairs[0].0 == name then [pairs[0].1] else []) + ValuesOf(pairs[1..], name)
  }

  function IsNot(name: string): Pair -> bool {
    (p: Pair) => p.0 != name
  }

  /** The list after `delete(name)`: every pair named `name` removed. */
  function Without(pairs: seq<Pair>, name: string): seq<Pair> {
    Seqs.Filter(pairs, IsNot(name))
  }

  /** The list after `set(name, value)`: the first pair named `name` gets `value` and the
      others with that name are removed; with no such pair, a new pair goes at the end. */
  function Replaced(pairs: seq<Pair>, name: string, value: string): seq<Pair> {
    if pairs == [] then [(name, value)]
    else if pairs[0].0 == name then [(name, value)] + Without(pairs[1..], name)
    else [pairs[0]] + Replaced(pairs[1..], name, value)
  }

  /** `get` is the first value of `getAll`, or null when `getAll` is empty. */
  lemma {:induction false} LookupIsFirstValue(pairs: seq<Pair>, name: string)
    ensures Lookup(pairs, name) == if ValuesOf(pairs, name) == [] then None else Some(ValuesOf(pairs, name)[0])
  {
    if pairs != [] && pairs[0].0 != name {
      LookupIsFirstValue(pairs[1..], name);
    }
  }

  lemma {:induction false} ValuesOfConcat(p: seq<Pair>, q: seq<Pair>, name: string)
    ensures ValuesOf(p + q, name) == ValuesOf(p, name) + ValuesOf(q, name)
  {
    if p == [] {
      assert p + q == q;
    } else {
      assert (p + q)[1..] == p[1..] + q;
      ValuesOfConcat(p[1..], q, name);
    }
  }

  /** A list with one more pair in front: `getAll` of every name gains that pair's value
      when the names agree and nothing otherwise. */
  lemma ValuesOfCons(p: Pair, rest: seq<Pair>)
    ensures forall n :: ValuesOf([p] + rest, n) == (if p.0 == n then [p.1] else []) + ValuesOf(rest, n)
  {
    assert ([p] + rest)[1..] == rest;
  }

  /** After `delete(name)` there are no values named `name`; every other name keeps its
      values. */
  lemma {:induction false} ValuesOfWithout(pairs: seq<Pair>, name: string, other: string)
    ensures ValuesOf(Without(pairs, name), other) == if other == name then [] else ValuesOf(pairs, other)
  {
    if pairs != [] {
      WithoutCons(pairs, name);
      ValuesOfConcat(if pairs[0].0 != name then [pairs[0]] else [], Without(pairs[1..], name), other);
      ValuesOfWithout(pairs[1..], name, other);
    }
  }

  /** After `set(name, value)`, `getAll(name)` is exactly `[value]` and every other name keeps
      its values. */
  lemma {:induction false} ValuesOfReplaced(pairs: seq<Pair>, name: string, value: string, other: string)
    ensures ValuesOf(Replaced(pairs, name, value), other) == if other == name then [value] else ValuesOf(pairs, other)
  {
    if pairs == [] {
    } else if pairs[0].0 == name {
      ValuesOfWithout(pairs[1..], name, other);
      assert Replaced(pairs, name, value) == [(name, value)] + Without(pairs[1..], name);
    } else {
      ValuesOfReplaced(pairs[1..], name, value, other);
      assert Replaced(pairs, name, value) == [pairs[0]] + Replaced(pairs[1..], name, value);
    }
  }

  /** After `append(name, value)`, `value` is the last value of `name`; other names keep
      their values. */
  lemma ValuesOfAppended(pairs: seq<Pair>, name: string, value: string, other: string)
    ensures ValuesOf(pairs + [(name, value)], other) == if other == name then ValuesOf(pairs, other) + [value] else ValuesOf(pairs, other)
  {
    ValuesOfConcat(pairs, [(name, value)], other);
  }

  /** `set` leaves every pair of another name where it was, relative to the others. */
  lemma {:induction false} ReplacedKeepsOthers(pairs: seq<Pair>, name: string, value: string)
    ensures Without(Replaced(pairs, name, value), name) == Without(pairs, name)
  {
    if pairs == [] {
    } else if pairs[0].0 == name {
      WithoutTwice(pairs[1..], name);
      assert Replaced(pairs, name, value) == [(name, value)] + Without(pairs[1..], name);
    } else {
      ReplacedKeepsOthers(pairs[1..], name, value);
      assert Replaced(pairs, name, value) == [pairs[0]] + Replaced(pairs[1..], name, value);
    }
  }

  lemma {:induction false} WithoutTwice(pairs: seq<Pair>, name: string)
    ensures Without(Without(pairs, name), name) == Without(pairs, name)
  {
    if pairs != [] {
      WithoutCons(pairs, name);
      var head := if pairs[0].0 != name then [pairs[0]] else [];
      Seqs.FilterConcat(head, Without(pairs[1..], name), IsNot(name));
      WithoutTwice(pairs[1..], name);
    }
  }

  lemma WithoutCons(pairs: seq<Pair>, name: string)
    requires pairs != []
    ensures Without(pairs, name) == (if pairs[0].0 != name then [pairs[0]] else []) + Without(pairs[1..], name)
  {
  }

  /** What `set(name, value)` still has to emit for the unscanned pairs `rest`: once the
      first pair named `name` has been overwritten (`found`), the later ones are dropped. */
  function Pending(rest: seq<Pair>, name: string, value: string, found: bool): seq<Pair> {
    if found then Without(rest, name) else Replaced(rest, name, value)
  }

  lemma PendingStep(rest: seq<Pair>, name: string, value: string, found: bool)
    requires rest != []
    ensures Pending(rest, name, value, found) ==
      (if rest[0].0 != name then [rest[0]] else if found then [] else [(name, value)])
      + Pending(rest[1..], name, value, found || rest[0].0 == name)
  {
    WithoutCons(rest, name);
  }

  /** One step of `set`'s scan keeps the list of pairs still to come in step. */
  lemma PendingKept(before: seq<Pair>, rest: seq<Pair>, name: string, value: string, found: bool,
                    out: seq<Pair>, nowFound: bool, target: seq<Pair>)
    requires rest != []
    requires before + Pending(rest, name, value, found) == target
    requires out == before + (if rest[0].0 != name then [rest[0]] else if found then [] else [(name, value)])
    requires nowFound == (found || rest[0].0 == name)
    ensures out + Pending(rest[1..], name, value, nowFound) == target
  {
    PendingStep(rest, name, value, found);
    assert before + out[|before|..] == out;
  }

  /** The browser's `URLSearchParams` object, reduced to its list of pairs. */
  class ParamStore {
    var pairs: seq<Pair>

    constructor (init: seq<Pair>)
      ensures pairs == init
    {
      pairs := init;
    }

    /** `get(name)`. */
    method Get(name: string) returns (r: Option<string>)
      ensures r == Lookup(pairs, name)
    {
      var i := 0;
      while i < |pairs| && pairs[i].0 != name
        invariant 0 <= i <= |pairs|
        invariant Lookup(pairs, name) == Lookup(pairs[i..], name)
      {
        assert pairs[i..][1..] == pairs[i + 1..];
        i := i + 1;
      }
      r := if i < |pairs| then Some(pairs[i].1) else None;
    }

    /** `getAll(name)`. */
    method GetAll(name: string) returns (values: seq<string>)
      ensures values == ValuesOf(pairs, name)
    {
      values := [];
      var i := 0;
      while i < |pairs|
        invariant 0 <= i <= |pairs|
        invariant values + ValuesOf(pairs[i..], name) == ValuesOf(pairs, name)
      {
        assert pairs[i..][1..] == pairs[i + 1..];
        if pairs[i].0 == name {
          values := values + [pairs[i].1];
        }
        i := i + 1;
      }
    }

    /** `append(name, value)`. */
    method Append(name: string, value: string)
      modifies this
      ensures pairs == old(pairs) + [(name, value)]
    {
      pairs := pairs + [(name, value)];
    }

    /** `delete(name)`: one pass that keeps the pairs of other names. */
    method Delete(name: string)
      modifies this
      ensures pairs == Without(old(pairs), name)
    {
      var kept: seq<Pair> := [];
      var i := 0;
      while i < |pairs|
        invariant 0 <= i <= |pairs|
        invariant kept + Without(pairs[i..], name) == Without(pairs, name)
      {
        assert pairs[i..][1..] == pairs[i + 1..];
        if pairs[i].0 != name {
          kept := kept + [pairs[i]];
        }
        i := i + 1;
      }
      pairs := kept;
    }

    /** `set(name, value)`: one pass that overwrites the first pair named `name`, drops the
        later ones, and appends a pair when none was found. */
    method Set(name: string, value: string)
      modifies this
      ensures pairs == Replaced(old(pairs), name, value)
    {
      var rest := pairs;
      var out: seq<Pair> := [];
      var found := false;
      while rest != []
        invariant out + Pending(rest, name, value, found) == Replaced(old(pairs), name, value)
        decreases |rest|
      {
        ghost var before, wasFound := out, found;
        if rest[0].0 == name {
          if !found {
            out := out + [(name, value)];
            found := true;
          }
        } else {
          out := out + [rest[0]];
        }
        PendingKept(before, rest, name, value, wasFound, out, found, Replaced(old(pairs), name, value));
        rest := rest[1..];
      }
      if !found {
        out := out + [(name, value)];
      }
      pairs := out;
    }
  }
}
