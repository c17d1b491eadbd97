/**
 * Binding a list of names to a list of values by `zip` followed by one
 * `insert` per pair. The same loop appears four times in the repository:
 * notation variables (src/parser/notation.rs:51-54), parameters in the new
 * evaluator (src/interpreter/evaluator.rs:126-129) and parameters in both
 * old evaluators (src/main.rs:39-41, src/interpreter.rs:56-58).
 */
module Bindings {

  function Min(a: nat, b: nat): nat { if a <= b then a else b }

  /**
   * `for (k, v) in keys.zip(vals) { m.insert(k, v) }`: pairs beyond the
   * shorter list are dropped, and a later duplicate key wins.
   */
  function Bind<V>(m: map<string, V>, keys: seq<string>, vals: seq<V>): (r: map<string, V>)
    ensures r.Keys == m.Keys + (set i | 0 <= i < Min(|keys|, |vals|) :: keys[i])
    decreases |keys|
  {
    if |keys| == 0 || |vals| == 0 then m
    else
      var r := Bind(m[keys[0] := vals[0]], keys[1..], vals[1..]);
      assert (set i | 0 <= i < Min(|keys|, |vals|) :: keys[i]) ==
        {keys[0]} + (set i | 0 <= i < Min(|keys[1..]|, |vals[1..]|) :: keys[1..][i]) by {
        forall i | 0 <= i < Min(|keys|, |vals|)
          ensures keys[i] in {keys[0]} + (set i | 0 <= i < Min(|keys[1..]|, |vals[1..]|) :: keys[1..][i])
        {
          if i > 0 {
            assert keys[i] == keys[1..][i - 1];
          }
        }
      }
      r
  }

  /** A key that none of the bound pairs names keeps its old binding, or stays unbound. */
  lemma {:induction false} BindUntouched<V>(m: map<string, V>, keys: seq<string>, vals: seq<V>, k: string)
    requires forall i :: 0 <= i < Min(|keys|, |vals|) ==> keys[i] != k
    ensures k in Bind(m, keys, vals) <==> k in m
    ensures k in m ==> Bind(m, keys, vals)[k] == m[k]
    decreases |keys|
  {
    if |keys| > 0 && |vals| > 0 {
      forall i | 0 <= i < Min(|keys[1..]|, |vals[1..]|)
        ensures keys[1..][i] != k
      {
        assert keys[1..][i] == keys[i + 1];
      }
      BindUntouched(m[keys[0] := vals[0]], keys[1..], vals[1..], k);
    }
  }

  /** A bound key maps to the value paired with its last occurrence. */
  lemma {:induction false} BindLast<V>(m: map<string, V>, keys: seq<string>, vals: seq<V>, i: nat)
    requires i < Min(|keys|, |vals|)
    requires forall j :: i < j < Min(|keys|, |vals|) ==> keys[j] != keys[i]
    ensures keys[i] in Bind(m, keys, vals) && Bind(m, keys, vals)[keys[i]] == vals[i]
    decreases |keys|
  {
    if i == 0 {
      forall j | 0 <= j < Min(|keys[1..]|, |vals[1..]|)
        ensures keys[1..][j] != keys[0]
      {
        assert keys[1..][j] == keys[j + 1];
      }
      BindUntouched(m[keys[0] := vals[0]], keys[1..], vals[1..], keys[0]);
    } else {
      forall j | i - 1 < j < Min(|keys[1..]|, |vals[1..]|)
        ensures keys[1..][j] != keys[1..][i - 1]
      {
        assert keys[1..][j] == keys[j + 1];
      }
      BindLast(m[keys[0] := vals[0]], keys[1..], vals[1..], i - 1);
    }
  }

  /** With distinct names the bound map sends each name to its own value. */
  lemma BindDistinct<V>(m: map<string, V>, keys: seq<string>, vals: seq<V>)
    requires |keys| == |vals|
    requires forall i, j :: 0 <= i < j < |keys| ==> keys[i] != keys[j]
    ensures forall i :: 0 <= i < |keys| ==> keys[i] in Bind(m, keys, vals) && Bind(m, keys, vals)[keys[i]] == vals[i]
  {
    forall i | 0 <= i < |keys|
      ensures keys[i] in Bind(m, keys, vals) && Bind(m, keys, vals)[keys[i]] == vals[i]
    {
      BindLast(m, keys, vals, i);
    }
  }

  /** The insertion loop itself, on a map the caller owns. */
  method BindParams<V>(m: map<string, V>, keys: seq<string>, vals: seq<V>) returns (r: map<string, V>)
    ensures r == Bind(m, keys, vals)
  {
    r := m;
    var i := 0;
    var n := Min(|keys|, |vals|);
    while i < n
      invariant 0 <= i <= n
      invariant Bind(r, keys[i..], vals[i..]) == Bind(m, keys, vals)
    {
      assert keys[i..][1..] == keys[i + 1..];
      assert vals[i..][1..] == vals[i + 1..];
      r := r[keys[i] := vals[i]];
      i := i + 1;
    }
  }
}
