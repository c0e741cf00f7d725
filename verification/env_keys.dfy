/**
 * Reading API keys from the process environment. Both key pools look up a
 * fixed list of variable names in order and keep the value of every variable
 * that is set to a non-empty string (Python's `if key:` on `os.getenv(name)`).
 */
module EnvKeys {

  /** The process environment: a variable that is unset has no entry. */
  type Env = map<string, string>

  /** `os.getenv(name)` is truthy: the variable is set and not empty. */
  predicate Present(env: Env, name: string)
  {
    name in env && env[name] != ""
  }

  /** The values of the present variables among `names`, in the order of `names`, duplicates kept. */
  function CollectKeys(env: Env, names: seq<string>): (keys: seq<string>)
    ensures |keys| <= |names|
    ensures forall k :: k in keys ==> k != ""
    decreases |names|
  {
    if names == [] then []
    else
      var last := names[|names| - 1];
      CollectKeys(env, names[..|names| - 1]) + (if Present(env, last) then [env[last]] else [])
  }

  /** Collecting over two name lists one after the other is collecting over their concatenation. */
  lemma {:induction false} CollectKeysAppend(env: Env, a: seq<string>, b: seq<string>)
    ensures CollectKeys(env, a + b) == CollectKeys(env, a) + CollectKeys(env, b)
    decreases |b|
  {
    if b == [] {
      assert a + b == a;
    } else {
      var b' := b[..|b| - 1];
      assert (a + b)[..|a + b| - 1] == a + b';
      CollectKeysAppend(env, a, b');
    }
  }

  /** A key is collected exactly when some listed variable is present with that value. */
  lemma {:induction false} CollectKeysMembership(env: Env, names: seq<string>, k: string)
    ensures k in CollectKeys(env, names) <==>
      exists j :: 0 <= j < |names| && Present(env, names[j]) && env[names[j]] == k
    decreases |names|
  {
    if names != [] {
      var init := names[..|names| - 1];
      CollectKeysMembership(env, init, k);
      if exists j :: 0 <= j < |init| && Present(env, init[j]) && env[init[j]] == k {
        var j :| 0 <= j < |init| && Present(env, init[j]) && env[init[j]] == k;
        assert names[j] == init[j];
      }
      if exists j :: 0 <= j < |names| && Present(env, names[j]) && env[names[j]] == k {
        var j :| 0 <= j < |names| && Present(env, names[j]) && env[names[j]] == k;
        if j < |init| {
          assert init[j] == names[j];
        }
      }
    }
  }

  /** When every listed variable is present, each one contributes its own value at its own position: no deduplication. */
  lemma {:induction false} CollectKeysAllPresent(env: Env, names: seq<string>)
    requires forall j :: 0 <= j < |names| ==> Present(env, names[j])
    ensures |CollectKeys(env, names)| == |names|
    ensures forall j :: 0 <= j < |names| ==> names[j] in env && CollectKeys(env, names)[j] == env[names[j]]
    decreases |names|
  {
    if names != [] {
      CollectKeysAllPresent(env, names[..|names| - 1]);
    }
  }

  /** Two variables holding the same key both contribute it. */
  lemma DuplicateKeysKept(env: Env, a: string, b: string)
    requires Present(env, a) && Present(env, b) && env[a] == env[b]
    ensures CollectKeys(env, [a, b]) == [env[a], env[a]]
  {
    assert [a, b][..1] == [a];
    assert [a][..0] == [];
  }
}
