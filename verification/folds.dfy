/** Facts about the left-to-right folds of module Resources: a failure, once
    reached, is the result of the whole fold; a fold succeeds iff each step
    does; and a map built by inserting entries in order keeps, for each key,
    the value of its last entry. Every fact is stated for one index, so that
    the property lemmas can quantify over them cheaply. */
module Folds {
  import opened Wrappers
  import opened Parser
  import opened Specifications
  import opened Resources

  /** No entry after i and before k has the key of entry i: entry i is the one
      whose value a map built by inserting entries[..k] in order keeps. */
  ghost predicate LastOccurrence(entries: seq<(string, ResourceValue)>, i: nat, k: nat)
    requires i < k <= |entries|
  {
    forall j :: i < j < k ==> entries[j].0 != entries[i].0
  }

  /** The translation of one object entry: its value under the context that
      its key selects. */
  ghost function EntryResult(rt: ResourceTranslationInputs, ext: Collaborators, entry: (string, ResourceValue)): Result<ResourceIr, Error> {
    var child :- EntryInputs(rt, entry.0, ext);
    Translate(entry.1, child, ext)
  }

  /** The translation of one top-level property of resource res: its value
      under the context that the resource type's rule for its name selects. */
  ghost function PropertyResult(res: ResourceDecl, tree: CloudformationParseTree, spec: Specification, ext: Collaborators, entry: (string, ResourceValue)): Result<ResourceIr, Error>
    requires res.resourceType in spec.resourceTypes
  {
    var rules := spec.resourceTypes[res.resourceType].properties;
    if rules.None? then Err(ResourceTypeWithoutProperties(res.resourceType))
    else if entry.0 !in rules.value then Err(UnknownResourceProperty(res.resourceType, entry.0))
    else Translate(entry.1, InitialInputs(tree, spec, rules.value[entry.0], res.resourceType, ext), ext)
  }

  // ---- A failure sticks -------------------------------------------------

  lemma {:induction false} RangeSticky(items: seq<ResourceValue>, lo: nat, i: nat, hi: nat, rt: ResourceTranslationInputs, ext: Collaborators)
    requires lo <= i <= hi <= |items|
    requires TranslateRange(items, lo, i, rt, ext).Err?
    ensures TranslateRange(items, lo, hi, rt, ext) == TranslateRange(items, lo, i, rt, ext)
    decreases hi
  {
    if hi > i {
      RangeSticky(items, lo, i, hi - 1, rt, ext);
    }
  }

  lemma {:induction false} EntriesSticky(v: ResourceValue, i: nat, k: nat, rt: ResourceTranslationInputs, ext: Collaborators)
    requires v.Object? && i <= k <= |v.entries|
    requires TranslateEntries(v, i, rt, ext).Err?
    ensures TranslateEntries(v, k, rt, ext) == TranslateEntries(v, i, rt, ext)
    decreases k
  {
    if k > i {
      EntriesSticky(v, i, k - 1, rt, ext);
    }
  }

  lemma {:induction false} OverrideEntriesSticky(obj: ResourceValue, i: nat, k: nat, rt: ResourceTranslationInputs, ext: Collaborators, t0: map<string, ResourceIr>)
    requires obj.Object? && i <= k <= |obj.entries|
    requires OverrideEntries(obj, i, rt, ext, t0).Err?
    ensures OverrideEntries(obj, k, rt, ext, t0) == OverrideEntries(obj, i, rt, ext, t0)
    decreases k
  {
    if k > i {
      OverrideEntriesSticky(obj, i, k - 1, rt, ext, t0);
    }
  }

  lemma {:induction false} SubOverridesSticky(v: ResourceValue, i: nat, j: nat, rt: ResourceTranslationInputs, ext: Collaborators)
    requires v.Sub? && 1 <= i <= j <= |v.args|
    requires SubOverrides(v, i, rt, ext).Err?
    ensures SubOverrides(v, j, rt, ext) == SubOverrides(v, i, rt, ext)
    decreases j
  {
    if j > i {
      SubOverridesSticky(v, i, j - 1, rt, ext);
    }
  }

  lemma {:induction false} PropertiesSticky(res: ResourceDecl, i: nat, k: nat, tree: CloudformationParseTree, spec: Specification, ext: Collaborators)
    requires i <= k <= |res.properties| && res.resourceType in spec.resourceTypes
    requires TranslateProperties(res, i, tree, spec, ext).Err?
    ensures TranslateProperties(res, k, tree, spec, ext) == TranslateProperties(res, i, tree, spec, ext)
    decreases k
  {
    if k > i {
      PropertiesSticky(res, i, k - 1, tree, spec, ext);
    }
  }

  lemma {:induction false} InstructionsSticky(tree: CloudformationParseTree, i: nat, n: nat, spec: Specification, ext: Collaborators)
    requires i <= n <= |tree.resources|
    requires Instructions(tree, i, spec, ext).Err?
    ensures Instructions(tree, n, spec, ext) == Instructions(tree, i, spec, ext)
    decreases n
  {
    if n > i {
      InstructionsSticky(tree, i, n - 1, spec, ext);
    }
  }

  /** A failure of the (k+1)-th property of resource i, after the earlier
      resources and properties succeeded, is the failure of the whole batch. */
  lemma PropertyFailureAborts(tree: CloudformationParseTree, i: nat, k: nat, spec: Specification, ext: Collaborators, done: seq<ResourceInstruction>)
    requires i < |tree.resources|
    requires Instructions(tree, i, spec, ext) == Ok(done)
    requires tree.resources[i].resourceType in spec.resourceTypes
    requires k < |tree.resources[i].properties|
    requires TranslateProperties(tree.resources[i], k + 1, tree, spec, ext).Err?
    ensures Instructions(tree, |tree.resources|, spec, ext) ==
            Err(TranslateProperties(tree.resources[i], k + 1, tree, spec, ext).error)
  {
    var res := tree.resources[i];
    PropertiesSticky(res, k + 1, |res.properties|, tree, spec, ext);
    InstructionsSticky(tree, i + 1, |tree.resources|, spec, ext);
  }

  // ---- One step of each fold --------------------------------------------

  lemma EntriesStep(v: ResourceValue, k: nat, rt: ResourceTranslationInputs, ext: Collaborators)
    requires v.Object? && 0 < k <= |v.entries|
    ensures TranslateEntries(v, k, rt, ext).Ok? <==>
      TranslateEntries(v, k - 1, rt, ext).Ok? && EntryResult(rt, ext, v.entries[k - 1]).Ok?
    ensures TranslateEntries(v, k, rt, ext).Ok? ==>
      TranslateEntries(v, k, rt, ext).value ==
      TranslateEntries(v, k - 1, rt, ext).value[v.entries[k - 1].0 := EntryResult(rt, ext, v.entries[k - 1]).value]
  {
  }

  lemma OverrideStep(obj: ResourceValue, k: nat, rt: ResourceTranslationInputs, ext: Collaborators, t0: map<string, ResourceIr>)
    requires obj.Object? && 0 < k <= |obj.entries|
    ensures OverrideEntries(obj, k, rt, ext, t0).Ok? <==>
      OverrideEntries(obj, k - 1, rt, ext, t0).Ok? && Translate(obj.entries[k - 1].1, rt, ext).Ok?
    ensures OverrideEntries(obj, k, rt, ext, t0).Ok? ==>
      OverrideEntries(obj, k, rt, ext, t0).value ==
      OverrideEntries(obj, k - 1, rt, ext, t0).value[obj.entries[k - 1].0 := Translate(obj.entries[k - 1].1, rt, ext).value]
  {
  }

  lemma SubOverridesStep(v: ResourceValue, j: nat, rt: ResourceTranslationInputs, ext: Collaborators)
    requires v.Sub? && 1 < j <= |v.args|
    ensures SubOverrides(v, j, rt, ext) ==
      match SubOverrides(v, j - 1, rt, ext)
      case Err(e) => Err(e)
      case Ok(table) =>
        if !v.args[j - 1].Object? then Err(SubOverridesNotObject)
        else OverrideEntries(v.args[j - 1], |v.args[j - 1].entries|, rt, ext, table)
  {
  }

  lemma PropertiesStep(res: ResourceDecl, k: nat, tree: CloudformationParseTree, spec: Specification, ext: Collaborators)
    requires 0 < k <= |res.properties| && res.resourceType in spec.resourceTypes
    ensures TranslateProperties(res, k, tree, spec, ext).Ok? <==>
      TranslateProperties(res, k - 1, tree, spec, ext).Ok? && PropertyResult(res, tree, spec, ext, res.properties[k - 1]).Ok?
    ensures TranslateProperties(res, k, tree, spec, ext).Ok? ==>
      TranslateProperties(res, k, tree, spec, ext).value ==
      TranslateProperties(res, k - 1, tree, spec, ext).value[res.properties[k - 1].0 := PropertyResult(res, tree, spec, ext, res.properties[k - 1]).value]
    ensures TranslateProperties(res, k - 1, tree, spec, ext).Ok? && PropertyResult(res, tree, spec, ext, res.properties[k - 1]).Err? ==>
      TranslateProperties(res, k, tree, spec, ext) == Err(PropertyResult(res, tree, spec, ext, res.properties[k - 1]).error)
  {
  }

  // ---- Object entries ---------------------------------------------------

  lemma {:induction false} EntriesOk(v: ResourceValue, k: nat, rt: ResourceTranslationInputs, ext: Collaborators)
    requires v.Object? && k <= |v.entries|
    ensures TranslateEntries(v, k, rt, ext).Ok? <==>
      forall i :: 0 <= i < k ==> EntryResult(rt, ext, v.entries[i]).Ok?
    decreases k
  {
    if k > 0 {
      EntriesOk(v, k - 1, rt, ext);
      EntriesStep(v, k, rt, ext);
    }
  }

  /** The first entry of an object that fails decides the error. */
  lemma EntriesFirstFailure(v: ResourceValue, i: nat, rt: ResourceTranslationInputs, ext: Collaborators)
    requires v.Object? && i < |v.entries|
    requires TranslateEntries(v, i, rt, ext).Ok? && EntryResult(rt, ext, v.entries[i]).Err?
    ensures TranslateEntries(v, |v.entries|, rt, ext) == Err(EntryResult(rt, ext, v.entries[i]).error)
  {
    EntriesSticky(v, i + 1, |v.entries|, rt, ext);
  }

  /** The value an object's translation keeps for the key of entry i is the
      translation of entry i when no later entry has that key. */
  lemma {:induction false} EntryValue(v: ResourceValue, k: nat, i: nat, rt: ResourceTranslationInputs, ext: Collaborators)
    requires v.Object? && i < k <= |v.entries|
    requires TranslateEntries(v, k, rt, ext).Ok?
    requires LastOccurrence(v.entries, i, k)
    ensures v.entries[i].0 in TranslateEntries(v, k, rt, ext).value
    ensures EntryResult(rt, ext, v.entries[i]) == Ok(TranslateEntries(v, k, rt, ext).value[v.entries[i].0])
    decreases k
  {
    EntriesStep(v, k, rt, ext);
    if i < k - 1 {
      assert v.entries[k - 1].0 != v.entries[i].0;
      EntryValue(v, k - 1, i, rt, ext);
    }
  }

  // ---- Override objects of Fn::Sub --------------------------------------

  lemma {:induction false} OverridesOk(obj: ResourceValue, k: nat, rt: ResourceTranslationInputs, ext: Collaborators, t0: map<string, ResourceIr>)
    requires obj.Object? && k <= |obj.entries|
    ensures OverrideEntries(obj, k, rt, ext, t0).Ok? <==>
      forall i :: 0 <= i < k ==> Translate(obj.entries[i].1, rt, ext).Ok?
    decreases k
  {
    if k > 0 {
      OverridesOk(obj, k - 1, rt, ext, t0);
      OverrideStep(obj, k, rt, ext, t0);
    }
  }

  /** The first override value that fails decides the error of the insertion. */
  lemma OverridesFirstFailure(obj: ResourceValue, i: nat, rt: ResourceTranslationInputs, ext: Collaborators, t0: map<string, ResourceIr>)
    requires obj.Object? && i < |obj.entries|
    requires forall e :: 0 <= e < i ==> Translate(obj.entries[e].1, rt, ext).Ok?
    requires Translate(obj.entries[i].1, rt, ext).Err?
    ensures OverrideEntries(obj, |obj.entries|, rt, ext, t0) == Err(Translate(obj.entries[i].1, rt, ext).error)
  {
    OverridesOk(obj, i, rt, ext, t0);
    OverrideEntriesSticky(obj, i + 1, |obj.entries|, rt, ext, t0);
  }

  /** The last insertion of a key into the override table wins. */
  lemma {:induction false} OverrideValue(obj: ResourceValue, k: nat, i: nat, rt: ResourceTranslationInputs, ext: Collaborators, t0: map<string, ResourceIr>)
    requires obj.Object? && i < k <= |obj.entries|
    requires OverrideEntries(obj, k, rt, ext, t0).Ok?
    requires LastOccurrence(obj.entries, i, k)
    ensures obj.entries[i].0 in OverrideEntries(obj, k, rt, ext, t0).value
    ensures Translate(obj.entries[i].1, rt, ext) == Ok(OverrideEntries(obj, k, rt, ext, t0).value[obj.entries[i].0])
    decreases k
  {
    OverrideStep(obj, k, rt, ext, t0);
    if i < k - 1 {
      assert obj.entries[k - 1].0 != obj.entries[i].0;
      OverrideValue(obj, k - 1, i, rt, ext, t0);
    }
  }

  /** A key that no inserted entry names keeps its earlier value. */
  lemma {:induction false} OverrideKeeps(obj: ResourceValue, k: nat, x: string, rt: ResourceTranslationInputs, ext: Collaborators, t0: map<string, ResourceIr>)
    requires obj.Object? && k <= |obj.entries|
    requires OverrideEntries(obj, k, rt, ext, t0).Ok?
    requires x in t0 && forall i :: 0 <= i < k ==> obj.entries[i].0 != x
    ensures x in OverrideEntries(obj, k, rt, ext, t0).value
    ensures OverrideEntries(obj, k, rt, ext, t0).value[x] == t0[x]
    decreases k
  {
    if k > 0 {
      OverrideStep(obj, k, rt, ext, t0);
      OverrideKeeps(obj, k - 1, x, rt, ext, t0);
    }
  }

  // ---- Key sets ---------------------------------------------------------

  lemma {:induction false} KeyUpToMember(entries: seq<(string, ResourceValue)>, k: nat, i: nat)
    requires i < k <= |entries|
    ensures entries[i].0 in KeysUpTo(entries, k)
    decreases k
  {
    if i < k - 1 {
      KeyUpToMember(entries, k - 1, i);
    }
  }

  lemma {:induction false} KeyWitness(entries: seq<(string, ResourceValue)>, k: nat, x: string) returns (i: nat)
    requires k <= |entries| && x in KeysUpTo(entries, k)
    ensures i < k && entries[i].0 == x
    decreases k
  {
    if entries[k - 1].0 == x {
      i := k - 1;
    } else {
      i := KeyWitness(entries, k - 1, x);
    }
  }

  /** An object's translation has exactly the object's keys. */
  lemma {:induction false} EntriesKeys(v: ResourceValue, k: nat, rt: ResourceTranslationInputs, ext: Collaborators)
    requires v.Object? && k <= |v.entries|
    requires TranslateEntries(v, k, rt, ext).Ok?
    ensures TranslateEntries(v, k, rt, ext).value.Keys == KeysUpTo(v.entries, k)
    decreases k
  {
    if k > 0 {
      EntriesStep(v, k, rt, ext);
      EntriesKeys(v, k - 1, rt, ext);
    }
  }

  /** Inserting override entries adds exactly their keys. */
  lemma {:induction false} OverrideEntriesKeys(obj: ResourceValue, k: nat, rt: ResourceTranslationInputs, ext: Collaborators, t0: map<string, ResourceIr>)
    requires obj.Object? && k <= |obj.entries|
    requires OverrideEntries(obj, k, rt, ext, t0).Ok?
    ensures OverrideEntries(obj, k, rt, ext, t0).value.Keys == t0.Keys + KeysUpTo(obj.entries, k)
    decreases k
  {
    if k > 0 {
      OverrideStep(obj, k, rt, ext, t0);
      OverrideEntriesKeys(obj, k - 1, rt, ext, t0);
    }
  }

  /** The merged override table has exactly the keys of the override objects. */
  lemma {:induction false} SubOverridesKeys(v: ResourceValue, j: nat, rt: ResourceTranslationInputs, ext: Collaborators)
    requires v.Sub? && 1 <= j <= |v.args|
    requires SubOverrides(v, j, rt, ext).Ok?
    ensures SubOverrides(v, j, rt, ext).value.Keys == OverrideKeys(v.args, j)
    decreases j
  {
    if j > 1 {
      SubOverridesStep(v, j, rt, ext);
      SubOverridesKeys(v, j - 1, rt, ext);
      var obj := v.args[j - 1];
      OverrideEntriesKeys(obj, |obj.entries|, rt, ext, SubOverrides(v, j - 1, rt, ext).value);
    }
  }

  /** A resource's translated properties have exactly its property names. */
  lemma {:induction false} PropertiesKeys(res: ResourceDecl, k: nat, tree: CloudformationParseTree, spec: Specification, ext: Collaborators)
    requires k <= |res.properties| && res.resourceType in spec.resourceTypes
    requires TranslateProperties(res, k, tree, spec, ext).Ok?
    ensures TranslateProperties(res, k, tree, spec, ext).value.Keys == KeysUpTo(res.properties, k)
    decreases k
  {
    if k > 0 {
      PropertiesKeys(res, k - 1, tree, spec, ext);
    }
  }

  // ---- Top-level properties of a resource ------------------------------

  lemma {:induction false} PropertiesOk(res: ResourceDecl, k: nat, tree: CloudformationParseTree, spec: Specification, ext: Collaborators)
    requires k <= |res.properties| && res.resourceType in spec.resourceTypes
    ensures TranslateProperties(res, k, tree, spec, ext).Ok? <==>
      forall i :: 0 <= i < k ==> PropertyResult(res, tree, spec, ext, res.properties[i]).Ok?
    decreases k
  {
    if k > 0 {
      PropertiesOk(res, k - 1, tree, spec, ext);
      PropertiesStep(res, k, tree, spec, ext);
    }
  }

  /** The first property that fails decides the error of the resource. */
  lemma PropertiesFirstFailure(res: ResourceDecl, i: nat, tree: CloudformationParseTree, spec: Specification, ext: Collaborators)
    requires i < |res.properties| && res.resourceType in spec.resourceTypes
    requires TranslateProperties(res, i, tree, spec, ext).Ok?
    requires PropertyResult(res, tree, spec, ext, res.properties[i]).Err?
    ensures TranslateProperties(res, |res.properties|, tree, spec, ext) ==
      Err(PropertyResult(res, tree, spec, ext, res.properties[i]).error)
  {
    PropertiesStep(res, i + 1, tree, spec, ext);
    PropertiesSticky(res, i + 1, |res.properties|, tree, spec, ext);
  }

  /** The value kept for a property name is the translation of its last
      occurrence. */
  lemma {:induction false} PropertyValue(res: ResourceDecl, k: nat, i: nat, tree: CloudformationParseTree, spec: Specification, ext: Collaborators)
    requires i < k <= |res.properties| && res.resourceType in spec.resourceTypes
    requires TranslateProperties(res, k, tree, spec, ext).Ok?
    requires LastOccurrence(res.properties, i, k)
    ensures res.properties[i].0 in TranslateProperties(res, k, tree, spec, ext).value
    ensures PropertyResult(res, tree, spec, ext, res.properties[i]) ==
      Ok(TranslateProperties(res, k, tree, spec, ext).value[res.properties[i].0])
    decreases k
  {
    PropertiesStep(res, k, tree, spec, ext);
    if i < k - 1 {
      assert res.properties[k - 1].0 != res.properties[i].0;
      PropertyValue(res, k - 1, i, tree, spec, ext);
    }
  }

  // ---- The batch of instructions ----------------------------------------

  lemma InstructionsStep(tree: CloudformationParseTree, n: nat, spec: Specification, ext: Collaborators)
    requires 0 < n <= |tree.resources|
    ensures Instructions(tree, n, spec, ext).Ok? <==>
      Instructions(tree, n - 1, spec, ext).Ok? && InstructionFor(tree.resources[n - 1], tree, spec, ext).Ok?
    ensures Instructions(tree, n, spec, ext).Ok? ==>
      Instructions(tree, n, spec, ext).value ==
      Instructions(tree, n - 1, spec, ext).value + [InstructionFor(tree.resources[n - 1], tree, spec, ext).value]
    ensures Instructions(tree, n - 1, spec, ext).Ok? && InstructionFor(tree.resources[n - 1], tree, spec, ext).Err? ==>
      Instructions(tree, n, spec, ext) == Err(InstructionFor(tree.resources[n - 1], tree, spec, ext).error)
  {
  }

  lemma {:induction false} InstructionsOk(tree: CloudformationParseTree, n: nat, spec: Specification, ext: Collaborators)
    requires n <= |tree.resources|
    ensures Instructions(tree, n, spec, ext).Ok? <==>
      forall i :: 0 <= i < n ==> InstructionFor(tree.resources[i], tree, spec, ext).Ok?
    decreases n
  {
    if n > 0 {
      InstructionsOk(tree, n - 1, spec, ext);
      InstructionsStep(tree, n, spec, ext);
    }
  }

  /** Instruction i of a successful batch is the instruction for resource i. */
  lemma {:induction false} InstructionAt(tree: CloudformationParseTree, n: nat, i: nat, spec: Specification, ext: Collaborators)
    requires i < n <= |tree.resources|
    requires Instructions(tree, n, spec, ext).Ok?
    ensures InstructionFor(tree.resources[i], tree, spec, ext) == Ok(Instructions(tree, n, spec, ext).value[i])
    decreases n
  {
    InstructionsStep(tree, n, spec, ext);
    if i < n - 1 {
      InstructionAt(tree, n - 1, i, spec, ext);
    }
  }

  /** The first resource that fails decides the error of the batch. */
  lemma InstructionsFirstFailure(tree: CloudformationParseTree, i: nat, spec: Specification, ext: Collaborators)
    requires i < |tree.resources|
    requires Instructions(tree, i, spec, ext).Ok?
    requires InstructionFor(tree.resources[i], tree, spec, ext).Err?
    ensures Instructions(tree, |tree.resources|, spec, ext) == Err(InstructionFor(tree.resources[i], tree, spec, ext).error)
  {
    InstructionsStep(tree, i + 1, spec, ext);
    InstructionsSticky(tree, i + 1, |tree.resources|, spec, ext);
  }
}
