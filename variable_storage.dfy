/** The variables a user keeps in the browser's local storage: one list per
    wallet, under the key `chainId--walletAddress`, edited by saving,
    updating and removing variables by name. */
module VariableStorage {
  import opened Wrappers
  import opened Text
  import opened Variables

  /** The wallet the page is connected to, if any. */
  datatype LocalWallet = LocalWallet(connected: bool, chainId: string, walletAddress: string)

  /** The storage entry of a wallet. */
  function StorageKey(w: LocalWallet): string {
    w.chainId + "--" + w.walletAddress
  }

  /** Wallet addresses never contain `-`, so different (chain, address) pairs
      get different keys, even when chain ids contain `-`. */
  lemma StorageKeyInjective(w1: LocalWallet, w2: LocalWallet)
    requires Excludes(w1.walletAddress, '-') && Excludes(w2.walletAddress, '-')
    ensures StorageKey(w1) == StorageKey(w2) <==> w1.chainId == w2.chainId && w1.walletAddress == w2.walletAddress
  {
    var k1, k2 := StorageKey(w1), StorageKey(w2);
    var a1, a2 := w1.walletAddress, w2.walletAddress;
    if k1 == k2 {
      assert k1[|w1.chainId| + 1] == '-';
      assert k2[|w2.chainId| + 1] == '-';
      assert k1[|k1| - |a1|..] == a1;
      assert k2[|k2| - |a2|..] == a2;
      assert a1 == a2;
      assert w1.chainId == k1[..|w1.chainId|];
      assert w2.chainId == k2[..|w2.chainId|];
    }
  }

  /** The whole local-storage object: a variable list per storage key. */
  type VariablesStorage = map<string, seq<Variable>>

  /** The list the page shows: none without a wallet, else the wallet's
      entry, or none when it has no entry yet. */
  function ViewOf(stored: VariablesStorage, w: LocalWallet): seq<Variable> {
    if !w.connected then []
    else if StorageKey(w) in stored then stored[StorageKey(w)]
    else []
  }

  /** The storage after writing `vs` for wallet `w`: unchanged without a
      wallet, else the wallet's entry replaced. */
  function Written(stored: VariablesStorage, w: LocalWallet, vs: seq<Variable>): VariablesStorage {
    if !w.connected then stored else stored[StorageKey(w) := vs]
  }

  /** A connected wallet sees what was written for it; another wallet's view
      (with a different key) is unchanged. */
  lemma WrittenView(stored: VariablesStorage, w: LocalWallet, vs: seq<Variable>, other: LocalWallet)
    ensures w.connected ==> ViewOf(Written(stored, w, vs), w) == vs
    ensures StorageKey(other) != StorageKey(w) ==> ViewOf(Written(stored, w, vs), other) == ViewOf(stored, other)
    ensures !w.connected ==> Written(stored, w, vs) == stored
  {
  }

  /** No two variables of `vs` have the same name. */
  predicate UniqueNames(vs: seq<Variable>) {
    forall i, j :: 0 <= i < j < |vs| ==> VariableName(vs[i]) != VariableName(vs[j])
  }

  /** `saveVariable`: appends `v` unless a variable with its name exists. */
  function SavedList(vs: seq<Variable>, v: Variable): seq<Variable> {
    if HasName(vs, VariableName(v)) then vs else vs + [v]
  }

  /** `updateVariable`: replaces the first variable named `prevName` by `v`;
      nothing changes when there is none. */
  function UpdatedList(vs: seq<Variable>, v: Variable, prevName: string): seq<Variable> {
    match FirstIndexNamed(vs, prevName)
    case None => vs
    case Some(i) => vs[i := v]
  }

  /** `removeVariable`: keeps the variables not named `name`, in order. */
  function RemovedList(vs: seq<Variable>, name: string): (r: seq<Variable>)
    ensures forall x :: x in r <==> x in vs && VariableName(x) != name
    ensures |r| <= |vs|
  {
    if |vs| == 0 then []
    else (if VariableName(vs[0]) != name then [vs[0]] else []) + RemovedList(vs[1..], name)
  }

  /** After a save the list has a variable with the saved name; the old list is
      kept as a prefix, and `v` is added exactly when its name was new. */
  lemma SavedListSpec(vs: seq<Variable>, v: Variable)
    ensures HasName(SavedList(vs, v), VariableName(v))
    ensures SavedList(vs, v)[..|vs|] == vs
    ensures HasName(vs, VariableName(v)) ==> SavedList(vs, v) == vs
    ensures !HasName(vs, VariableName(v)) ==> SavedList(vs, v) == vs + [v]
  {
    if !HasName(vs, VariableName(v)) {
      assert (vs + [v])[|vs|] == v;
    }
  }

  /** Saving the same variable twice saves it once. */
  lemma SavedListIdempotent(vs: seq<Variable>, v: Variable)
    ensures SavedList(SavedList(vs, v), v) == SavedList(vs, v)
  {
    SavedListSpec(vs, v);
  }

  /** Saving keeps names unique. */
  lemma SavedListUnique(vs: seq<Variable>, v: Variable)
    requires UniqueNames(vs)
    ensures UniqueNames(SavedList(vs, v))
  {
    if !HasName(vs, VariableName(v)) {
      var r := vs + [v];
      forall i, j | 0 <= i < j < |r| ensures VariableName(r[i]) != VariableName(r[j]) {
        if j == |vs| {
          assert r[i] == vs[i];
        }
      }
    }
  }

  /** An update keeps the length, replaces the first variable named
      `prevName` (if any) and leaves every other position alone. */
  lemma UpdatedListSpec(vs: seq<Variable>, v: Variable, prevName: string)
    ensures |UpdatedList(vs, v, prevName)| == |vs|
    ensures !HasName(vs, prevName) ==> UpdatedList(vs, v, prevName) == vs
    ensures HasName(vs, prevName) ==> exists i ::
      && 0 <= i < |vs| && VariableName(vs[i]) == prevName
      && (forall j :: 0 <= j < i ==> VariableName(vs[j]) != prevName)
      && UpdatedList(vs, v, prevName) == vs[i := v]
  {
  }

  /** Updating a variable with itself changes nothing. */
  lemma UpdatedListSelf(vs: seq<Variable>, i: int)
    requires 0 <= i < |vs| && UniqueNames(vs)
    ensures UpdatedList(vs, vs[i], VariableName(vs[i])) == vs
  {
    var name := VariableName(vs[i]);
    match FirstIndexNamed(vs, name)
    case None =>
    case Some(k) =>
      assert k == i;
  }

  /** An update keeps names unique when the new variable keeps the old name
      or takes a name that is not in use. */
  lemma UpdatedListUnique(vs: seq<Variable>, v: Variable, prevName: string)
    requires UniqueNames(vs)
    requires VariableName(v) == prevName || !HasName(vs, VariableName(v))
    ensures UniqueNames(UpdatedList(vs, v, prevName))
  {
    match FirstIndexNamed(vs, prevName)
    case None =>
    case Some(k) =>
      var r := vs[k := v];
      forall i, j | 0 <= i < j < |r| ensures VariableName(r[i]) != VariableName(r[j]) {
        if i == k {
          assert VariableName(vs[j]) != VariableName(vs[k]);
        } else if j == k {
          assert VariableName(vs[i]) != VariableName(vs[k]);
        }
      }
  }

  /** Filtering a concatenation filters each part. */
  lemma {:induction false} RemovedListAppend(a: seq<Variable>, b: seq<Variable>, name: string)
    ensures RemovedList(a + b, name) == RemovedList(a, name) + RemovedList(b, name)
  {
    if |a| == 0 {
      assert a + b == b;
      assert RemovedList(a, name) + RemovedList(b, name) == RemovedList(b, name);
    } else {
      var head := if VariableName(a[0]) != name then [a[0]] else [];
      assert (a + b)[0] == a[0];
      assert (a + b)[1..] == a[1..] + b;
      RemovedListAppend(a[1..], b, name);
      ConcatAssoc(head, RemovedList(a[1..], name), RemovedList(b, name));
    }
  }

  lemma ConcatAssoc<T>(x: seq<T>, y: seq<T>, z: seq<T>)
    ensures x + (y + z) == (x + y) + z
  {
  }

  /** Nothing is removed when no variable has the name. */
  lemma {:induction false} RemovedListNone(vs: seq<Variable>, name: string)
    requires !HasName(vs, name)
    ensures RemovedList(vs, name) == vs
  {
    if |vs| > 0 {
      assert VariableName(vs[0]) != name;
      assert !HasName(vs[1..], name) by {
        forall i | 0 <= i < |vs| - 1 ensures VariableName(vs[1..][i]) != name {
          assert vs[1..][i] == vs[i + 1];
        }
      }
      RemovedListNone(vs[1..], name);
      assert [vs[0]] + vs[1..] == vs;
    }
  }

  /** After a removal no variable has the name, and a second removal changes
      nothing. */
  lemma RemovedListSpec(vs: seq<Variable>, name: string)
    ensures !HasName(RemovedList(vs, name), name)
    ensures RemovedList(RemovedList(vs, name), name) == RemovedList(vs, name)
  {
    var r := RemovedList(vs, name);
    forall i | 0 <= i < |r| ensures VariableName(r[i]) != name {
      assert r[i] in r;
    }
    RemovedListNone(r, name);
  }

  /** Removing keeps names unique. */
  lemma {:induction false} RemovedListUnique(vs: seq<Variable>, name: string)
    requires UniqueNames(vs)
    ensures UniqueNames(RemovedList(vs, name))
  {
    if |vs| > 0 {
      var tail := vs[1..];
      assert UniqueNames(tail) by {
        forall i, j | 0 <= i < j < |tail| ensures VariableName(tail[i]) != VariableName(tail[j]) {
          assert tail[i] == vs[i + 1] && tail[j] == vs[j + 1];
        }
      }
      RemovedListUnique(tail, name);
      var rest := RemovedList(tail, name);
      if VariableName(vs[0]) != name {
        var r := [vs[0]] + rest;
        forall i, j | 0 <= i < j < |r| ensures VariableName(r[i]) != VariableName(r[j]) {
          if i == 0 {
            assert r[j] in rest;
            assert r[j] in tail;
            var k :| 0 <= k < |tail| && tail[k] == r[j];
            assert vs[k + 1] == r[j];
          } else {
            assert r[i] == rest[i - 1] && r[j] == rest[j - 1];
          }
        }
      }
    }
  }

  /** Saving a variable and then removing its name is the same as removing
      the name directly. */
  lemma RemoveUndoesSave(vs: seq<Variable>, v: Variable)
    ensures RemovedList(SavedList(vs, v), VariableName(v)) == RemovedList(vs, VariableName(v))
  {
    if !HasName(vs, VariableName(v)) {
      RemovedListAppend(vs, [v], VariableName(v));
      assert RemovedList([v], VariableName(v)) == [];
    }
  }

  /** The stored variables and the wallet of the page. */
  class VariableStore {
    var stored: VariablesStorage
    var wallet: LocalWallet

    constructor(w: LocalWallet)
      ensures stored == map[] && wallet == w
    {
      stored := map[];
      wallet := w;
    }

    /** The `variables` the page shows. */
    function Variables(): seq<Variable>
      reads this
    {
      ViewOf(stored, wallet)
    }

    /** Replaces the wallet's list; does nothing without a wallet. */
    method SetVariables(vs: seq<Variable>)
      modifies this
      ensures stored == Written(old(stored), wallet, vs) && wallet == old(wallet)
      ensures wallet.connected ==> Variables() == vs
      ensures !wallet.connected ==> Variables() == []
    {
      if !wallet.connected {
        return;
      }
      stored := stored[StorageKey(wallet) := vs];
    }

    method SaveAll(vs: seq<Variable>)
      modifies this
      ensures stored == Written(old(stored), wallet, vs) && wallet == old(wallet)
    {
      SetVariables(vs);
    }

    method SaveVariable(v: Variable)
      modifies this
      ensures stored == Written(old(stored), wallet, SavedList(old(Variables()), v)) && wallet == old(wallet)
      ensures wallet.connected ==> HasName(Variables(), VariableName(v))
    {
      SavedListSpec(Variables(), v);
      SetVariables(SavedList(Variables(), v));
    }

    method UpdateVariable(v: Variable, prev: Variable)
      modifies this
      ensures stored == Written(old(stored), wallet, UpdatedList(old(Variables()), v, VariableName(prev))) && wallet == old(wallet)
      ensures |Variables()| == |old(Variables())|
    {
      UpdatedListSpec(Variables(), v, VariableName(prev));
      SetVariables(UpdatedList(Variables(), v, VariableName(prev)));
    }

    method RemoveVariable(name: string)
      modifies this
      ensures stored == Written(old(stored), wallet, RemovedList(old(Variables()), name)) && wallet == old(wallet)
      ensures !HasName(Variables(), name)
    {
      RemovedListSpec(Variables(), name);
      SetVariables(RemovedList(Variables(), name));
    }
  }
}
