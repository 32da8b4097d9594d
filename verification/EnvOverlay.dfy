/** Overlaying key=value patches on a Docker Env list, in whatever order the patch map
    is iterated. */
module EnvOverlay {
  import opened Wrappers
  import opened Splitting

  function KeyOf(entry: string): string { UpTo(entry, '=') }

  function Entry(key: string, value: string): string { key + ['='] + value }

  /** Where the entry that counts for `key` stands, the last one; -1 when there is none. */
  function LastIndex(env: seq<string>, key: string): (i: int)
    ensures -1 <= i < |env|
    ensures i >= 0 ==> KeyOf(env[i]) == key
    ensures forall j | i < j < |env| :: KeyOf(env[j]) != key
  {
    if env == [] then -1
    else if KeyOf(env[|env| - 1]) == key then |env| - 1
    else LastIndex(env[..|env| - 1], key)
  }

  lemma LastIndexIs(env: seq<string>, key: string, i: nat)
    requires i < |env| && KeyOf(env[i]) == key && forall j | i < j < |env| :: KeyOf(env[j]) != key
    ensures LastIndex(env, key) == i
  {
    assert LastIndex(env, key) >= i;
  }

  function Lookup(env: seq<string>, key: string): Option<string> {
    if LastIndex(env, key) < 0 then None else Some(env[LastIndex(env, key)])
  }

  /** What stands at `i` once the keys of `patched` are patched: the last entry of a key
      takes its patch. */
  function InPlace(existing: seq<string>, patches: map<string, string>, patched: set<string>, i: nat): string
    requires i < |existing| && patched <= patches.Keys
  {
    var key := KeyOf(existing[i]);
    if key in patched && LastIndex(existing, key) == i then Entry(key, patches[key]) else existing[i]
  }

  /** `order` lists, once each, the patched keys that had no entry. */
  ghost predicate IsOrder(existing: seq<string>, patched: set<string>, order: seq<string>) {
    && Distinct(order)
    && (forall k :: k in order <==> k in patched && LastIndex(existing, k) < 0)
  }

  /** `out` is `existing` with the last entry of each patched key replaced in its place,
      followed by one entry for each patched key that had none. */
  predicate Overlaid(existing: seq<string>, patches: map<string, string>, patched: set<string>,
                     order: seq<string>, out: seq<string>)
    requires patched <= patches.Keys
  {
    && |out| == |existing| + |order|
    && (forall i | 0 <= i < |existing| :: out[i] == InPlace(existing, patches, patched, i))
    && (forall j | 0 <= j < |order| :: order[j] in patches && out[|existing| + j] == Entry(order[j], patches[order[j]]))
  }

  lemma ReplaceStep(existing: seq<string>, patches: map<string, string>, patched: set<string>,
                    order: seq<string>, out: seq<string>, k: string)
    requires patched <= patches.Keys && IsOrder(existing, patched, order)
    requires Overlaid(existing, patches, patched, order, out)
    requires k in patches && k !in patched && LastIndex(existing, k) >= 0
    ensures IsOrder(existing, patched + {k}, order)
    ensures Overlaid(existing, patches, patched + {k}, order, out[LastIndex(existing, k) := Entry(k, patches[k])])
  {
    var at := LastIndex(existing, k);
    forall i | 0 <= i < |existing|
      ensures InPlace(existing, patches, patched + {k}, i)
              == if i == at then Entry(k, patches[k]) else InPlace(existing, patches, patched, i)
    {}
  }

  lemma AppendStep(existing: seq<string>, patches: map<string, string>, patched: set<string>,
                   order: seq<string>, out: seq<string>, k: string)
    requires patched <= patches.Keys && IsOrder(existing, patched, order)
    requires Overlaid(existing, patches, patched, order, out)
    requires k in patches && k !in patched && LastIndex(existing, k) < 0
    ensures IsOrder(existing, patched + {k}, order + [k])
    ensures Overlaid(existing, patches, patched + {k}, order + [k], out + [Entry(k, patches[k])])
  {
    assert k !in order;
    forall i | 0 <= i < |existing|
      ensures InPlace(existing, patches, patched + {k}, i) == InPlace(existing, patches, patched, i)
    {}
  }

  ghost predicate IndexOf(index: map<string, nat>, env: seq<string>) {
    forall k :: (k in index <==> LastIndex(env, k) >= 0) && (k in index ==> index[k] == LastIndex(env, k))
  }

  lemma IndexStep(index: map<string, nat>, env: seq<string>, e: string)
    requires IndexOf(index, env)
    ensures IndexOf(index[KeyOf(e) := |env|], env + [e])
  {
    assert (env + [e])[..|env|] == env;
  }

  method IndexEntries(existing: seq<string>) returns (index: map<string, nat>)
    ensures IndexOf(index, existing)
  {
    index := map[];
    var out: seq<string> := [];
    for n := 0 to |existing|
      invariant out == existing[..n] && IndexOf(index, out)
    {
      var key := KeyOf(existing[n]);
      IndexStep(index, out, existing[n]);
      index := index[key := |out|];
      out := out + [existing[n]];
    }
    assert out == existing;
  }

  /** The merge with the keys of `patched` done. */
  ghost predicate Merging(existing: seq<string>, patches: map<string, string>, patched: set<string>,
                          order: seq<string>, out: seq<string>, index: map<string, nat>)
  {
    && patched <= patches.Keys && IsOrder(existing, patched, order)
    && Overlaid(existing, patches, patched, order, out) && Indexed(index, existing, patches.Keys - patched)
  }

  method PatchKey(ghost existing: seq<string>, patches: map<string, string>, ghost patched: set<string>,
                  ghost order: seq<string>, out: seq<string>, index: map<string, nat>, k: string)
    returns (next: seq<string>, nextIndex: map<string, nat>)
    requires Merging(existing, patches, patched, order, out, index) && k in patches.Keys - patched
    ensures Merging(existing, patches, patched + {k}, NextOrder(existing, order, k), next, nextIndex)
  {
    var entry := Entry(k, patches[k]);
    if k in index {
      ReplaceStep(existing, patches, patched, order, out, k);
      next, nextIndex := out[index[k] := entry], index;
    } else {
      AppendStep(existing, patches, patched, order, out, k);
      next, nextIndex := out + [entry], index[k := |out|];
    }
  }

  function NextOrder(existing: seq<string>, order: seq<string>, k: string): seq<string> {
    if LastIndex(existing, k) >= 0 then order else order + [k]
  }

  lemma MergeStart(existing: seq<string>, patches: map<string, string>, index: map<string, nat>)
    requires IndexOf(index, existing)
    ensures Merging(existing, patches, {}, [], existing, index)
  {
  }

  /** `keys` is one of the orders in which the patch map may be iterated. */
  ghost predicate IsIteration(patches: map<string, string>, keys: seq<string>) {
    && (forall i, j | 0 <= i < j < |keys| :: keys[i] != keys[j])
    && (forall k :: k in keys <==> k in patches)
  }

  function SetOf(keys: seq<string>): (s: set<string>)
    ensures forall k :: k in s <==> k in keys
  {
    if keys == [] then {} else SetOf(keys[..|keys| - 1]) + {keys[|keys| - 1]}
  }

  method MergeEnv(existing: seq<string>, patches: map<string, string>, keys: seq<string>)
    returns (out: seq<string>)
    requires IsIteration(patches, keys)
    ensures exists order :: IsOrder(existing, patches.Keys, order) && Overlaid(existing, patches, patches.Keys, order, out)
  {
    var index: map<string, nat> := IndexEntries(existing);
    out := existing;
    ghost var order: seq<string> := [];
    MergeStart(existing, patches, index);
    for i := 0 to |keys|
      invariant Merging(existing, patches, SetOf(keys[..i]), order, out, index)
    {
      assert keys[..i + 1][..i] == keys[..i] && keys[i] in patches && keys[i] !in keys[..i];
      out, index := PatchKey(existing, patches, SetOf(keys[..i]), order, out, index, keys[i]);
      order := NextOrder(existing, order, keys[i]);
    }
    assert SetOf(keys[..|keys|]) == patches.Keys by { assert keys[..|keys|] == keys; }
  }

  ghost predicate Indexed(index: map<string, nat>, env: seq<string>, keys: set<string>) {
    forall k | k in keys :: (k in index <==> LastIndex(env, k) >= 0) && (k in index ==> index[k] == LastIndex(env, k))
  }

  // ----- what a lookup then finds -----

  lemma KeyOfEntry(key: string, value: string)
    requires '=' !in key
    ensures KeyOf(Entry(key, value)) == key
  {
    UpToSeparator(key, '=', value);
  }

  predicate PlainKeys(patches: map<string, string>) { forall k | k in patches :: '=' !in k }

  lemma KeysInPlace(existing: seq<string>, patches: map<string, string>, order: seq<string>, out: seq<string>)
    requires Overlaid(existing, patches, patches.Keys, order, out) && PlainKeys(patches)
    ensures forall i | 0 <= i < |existing| :: KeyOf(out[i]) == KeyOf(existing[i])
    ensures forall j | 0 <= j < |order| :: KeyOf(out[|existing| + j]) == order[j]
  {
    forall i | 0 <= i < |existing| ensures KeyOf(out[i]) == KeyOf(existing[i]) {
      assert out[i] == InPlace(existing, patches, patches.Keys, i);
      if KeyOf(existing[i]) in patches { KeyOfEntry(KeyOf(existing[i]), patches[KeyOf(existing[i])]); }
    }
    forall j | 0 <= j < |order| ensures KeyOf(out[|existing| + j]) == order[j] {
      KeyOfEntry(order[j], patches[order[j]]);
    }
  }

  predicate Distinct(order: seq<string>) { forall i, j | 0 <= i < j < |order| :: order[i] != order[j] }

  lemma LastIndexMerged(existing: seq<string>, patches: map<string, string>, order: seq<string>, out: seq<string>, key: string)
    requires Overlaid(existing, patches, patches.Keys, order, out) && PlainKeys(patches) && Distinct(order)
    ensures key !in order ==> LastIndex(out, key) == LastIndex(existing, key)
    ensures key in order ==> Lookup(out, key) == Some(Entry(key, patches[key]))
  {
    KeysInPlace(existing, patches, order, out);
    LastIndexAfter(existing, order, out, key);
  }

  /** After the merge each patched key looks up its patch and every other key looks up
      what it did before. */
  lemma LookupAfterMerge(existing: seq<string>, patches: map<string, string>, order: seq<string>, out: seq<string>, key: string)
    requires IsOrder(existing, patches.Keys, order) && Overlaid(existing, patches, patches.Keys, order, out)
    requires PlainKeys(patches)
    ensures Lookup(out, key) == if key in patches then Some(Entry(key, patches[key])) else Lookup(existing, key)
  {
    LastIndexMerged(existing, patches, order, out, key);
    if key !in order && LastIndex(existing, key) >= 0 {
      assert out[LastIndex(existing, key)] == InPlace(existing, patches, patches.Keys, LastIndex(existing, key));
    }
  }

  /** Keys in place, then the keys of `order`: where each key stands last. */
  lemma LastIndexAfter(existing: seq<string>, order: seq<string>, out: seq<string>, key: string)
    requires |out| == |existing| + |order| && Distinct(order)
    requires forall i | 0 <= i < |existing| :: KeyOf(out[i]) == KeyOf(existing[i])
    requires forall j | 0 <= j < |order| :: KeyOf(out[|existing| + j]) == order[j]
    ensures key !in order ==> LastIndex(out, key) == LastIndex(existing, key)
    ensures forall j | 0 <= j < |order| && order[j] == key :: LastIndex(out, key) == |existing| + j
  {
    forall i | |existing| <= i < |out| ensures KeyOf(out[i]) == order[i - |existing|] {
      assert KeyOf(out[|existing| + (i - |existing|)]) == order[i - |existing|];
    }
    if j :| 0 <= j < |order| && order[j] == key {
      LastIndexIs(out, key, |existing| + j);
    } else if LastIndex(existing, key) >= 0 {
      LastIndexIs(out, key, LastIndex(existing, key));
    } else {
      NoIndex(out, key);
    }
  }

  lemma NoIndex(env: seq<string>, key: string)
    requires forall i | 0 <= i < |env| :: KeyOf(env[i]) != key
    ensures LastIndex(env, key) == -1
  {
  }

  /** That every patched key looks up its patch holds exactly when no patched key
      contains '='. */
  lemma PatchesLookUpExactly(existing: seq<string>, patches: map<string, string>, order: seq<string>, out: seq<string>)
    requires IsOrder(existing, patches.Keys, order) && Overlaid(existing, patches, patches.Keys, order, out)
    ensures (forall k | k in patches :: Lookup(out, k) == Some(Entry(k, patches[k]))) <==> PlainKeys(patches)
  {
    if PlainKeys(patches) {
      forall k | k in patches ensures Lookup(out, k) == Some(Entry(k, patches[k])) {
        LookupAfterMerge(existing, patches, order, out, k);
      }
    } else {
      var k :| k in patches && '=' in k;
      NoEntryHasKey(out, k);
    }
  }

  lemma NoEntryHasKey(env: seq<string>, key: string)
    requires '=' in key
    ensures Lookup(env, key) == None
  {
    if LastIndex(env, key) >= 0 { UpToIsFree(env[LastIndex(env, key)], '='); }
  }

  lemma KeyOfAnyEntry(key: string, value: string)
    ensures KeyOf(Entry(key, value)) == KeyOf(key)
  {
    UpToIsFree(key, '=');
    UpToExtends(key, '=', ['='] + value);
    assert Entry(key, value) == key + (['='] + value);
  }

  /** What is behind the last patched key that begins with this one, if any, is looked up. */
  predicate LastOfHead(order: seq<string>, j: nat)
    requires j < |order|
  {
    forall i | j < i < |order| :: KeyOf(order[i]) != KeyOf(order[j])
  }

  lemma HeadsInPlace(existing: seq<string>, patches: map<string, string>, order: seq<string>, out: seq<string>)
    requires Overlaid(existing, patches, patches.Keys, order, out)
    ensures forall i | 0 <= i < |existing| :: KeyOf(out[i]) == KeyOf(existing[i])
    ensures forall j | 0 <= j < |order| :: KeyOf(out[|existing| + j]) == KeyOf(order[j])
  {
    forall i | 0 <= i < |existing| ensures KeyOf(out[i]) == KeyOf(existing[i]) {
      assert out[i] == InPlace(existing, patches, patches.Keys, i);
      UpToIsFree(existing[i], '=');
      if KeyOf(existing[i]) in patches { KeyOfEntry(KeyOf(existing[i]), patches[KeyOf(existing[i])]); }
    }
    forall j | 0 <= j < |order| ensures KeyOf(out[|existing| + j]) == KeyOf(order[j]) {
      KeyOfAnyEntry(order[j], patches[order[j]]);
    }
  }

  /** A key that is not patched: what it looks up is untouched, or is the entry of the
      last appended key that begins with it. */
  lemma OtherKeyAfterMerge(existing: seq<string>, patches: map<string, string>, order: seq<string>, out: seq<string>, key: string)
    requires Overlaid(existing, patches, patches.Keys, order, out) && key !in patches
    ensures (forall j | 0 <= j < |order| :: KeyOf(order[j]) != key) ==> Lookup(out, key) == Lookup(existing, key)
    ensures forall j | 0 <= j < |order| && KeyOf(order[j]) == key && LastOfHead(order, j) ::
              Lookup(out, key) == Some(Entry(order[j], patches[order[j]]))
  {
    HeadsInPlace(existing, patches, order, out);
    forall i | |existing| <= i < |out| ensures KeyOf(out[i]) == KeyOf(order[i - |existing|]) {
      assert KeyOf(out[|existing| + (i - |existing|)]) == KeyOf(order[i - |existing|]);
    }
    if j :| 0 <= j < |order| && KeyOf(order[j]) == key && LastOfHead(order, j) {
      LastIndexIs(out, key, |existing| + j);
    } else if forall j | 0 <= j < |order| :: KeyOf(order[j]) != key {
      if LastIndex(existing, key) >= 0 {
        LastIndexIs(out, key, LastIndex(existing, key));
        assert out[LastIndex(existing, key)] == InPlace(existing, patches, patches.Keys, LastIndex(existing, key));
      } else {
        NoIndex(out, key);
      }
    }
  }

  lemma {:induction false} LastOfHeadExists(order: seq<string>, j: nat) returns (k: nat)
    requires j < |order|
    ensures k < |order| && KeyOf(order[k]) == KeyOf(order[j]) && LastOfHead(order, k)
    decreases |order| - j
  {
    if i :| j < i < |order| && KeyOf(order[i]) == KeyOf(order[j]) {
      k := LastOfHeadExists(order, i);
    } else {
      k := j;
    }
  }

  /** Every key that is not patched keeps its lookup if and only if each appended key
      that begins with such a key, and is the last to do so, spells the very entry
      that was looked up before. */
  lemma OtherKeysKeepLookupExactly(existing: seq<string>, patches: map<string, string>, order: seq<string>, out: seq<string>)
    requires IsOrder(existing, patches.Keys, order) && Overlaid(existing, patches, patches.Keys, order, out)
    ensures (forall key | key !in patches :: Lookup(out, key) == Lookup(existing, key)) <==>
            (forall j | 0 <= j < |order| && KeyOf(order[j]) !in patches && LastOfHead(order, j) ::
               Lookup(existing, KeyOf(order[j])) == Some(Entry(order[j], patches[order[j]])))
  {
    forall key | key !in patches
      ensures (forall j | 0 <= j < |order| :: KeyOf(order[j]) != key) ==> Lookup(out, key) == Lookup(existing, key)
      ensures forall j | 0 <= j < |order| && KeyOf(order[j]) == key && LastOfHead(order, j) ::
                Lookup(out, key) == Some(Entry(order[j], patches[order[j]]))
      ensures (forall j | 0 <= j < |order| :: KeyOf(order[j]) != key)
              || exists j :: 0 <= j < |order| && KeyOf(order[j]) == key && LastOfHead(order, j)
    {
      OtherKeyAfterMerge(existing, patches, order, out, key);
      if j :| 0 <= j < |order| && KeyOf(order[j]) == key { var k := LastOfHeadExists(order, j); }
    }
  }

  lemma FirstTwoDiffer(existing: seq<string>, patched: set<string>, order: seq<string>)
    requires IsOrder(existing, patched, order)
    ensures |order| <= 1 || order[0] != order[1]
  {
  }

  /** A patched key with '=' also disturbs a key that is not patched. */
  lemma EqualsSignDisturbsOtherKey(order: seq<string>, out: seq<string>)
    requires var existing, patches := ["A=1"], map["A=2" := "3"];
             IsOrder(existing, patches.Keys, order) && Overlaid(existing, patches, patches.Keys, order, out)
    ensures Lookup(["A=1"], "A") == Some("A=1") && Lookup(out, "A") == Some("A=2=3")
  {
    KeyOfEntry("A", "1");
    KeyOfEntry("A", "2=3");
    assert Entry("A", "1") == "A=1" && Entry("A", "2=3") == "A=2=3" == Entry("A=2", "3");
    NoEntryHasKey(["A=1"], "A=2");
    assert "A=2" in order;
    var j :| 0 <= j < |order| && order[j] == "A=2";
    assert forall i | 0 <= i < |order| :: order[i] in order && order[i] == "A=2";
    FirstTwoDiffer(["A=1"], {"A=2"}, order);
    LastIndexIs(["A=1"], "A", 0);
    LastIndexIs(out, "A", 1);
  }
}
