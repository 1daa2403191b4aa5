/** What the translation promises, proved about the reference functions of
    module Resources (and so, through their postconditions, about the methods
    of module ResourceTranslation). */
module ResourceLemmas {
  import opened Wrappers
  import opened Parser
  import opened Specifications
  import opened References
  import opened Resources
  import opened Folds

  /** Every items[i] with lo <= i < hi translates without error. */
  ghost predicate AllTranslate(items: seq<ResourceValue>, lo: nat, hi: nat, rt: ResourceTranslationInputs, ext: Collaborators)
    requires lo <= hi <= |items|
  {
    forall i :: lo <= i < hi ==> Translate(items[i], rt, ext).Ok?
  }

  /** A scalar becomes the identical IR leaf, whatever the context. */
  lemma ScalarLeaf(v: ResourceValue, rt1: ResourceTranslationInputs, rt2: ResourceTranslationInputs, ext: Collaborators)
    requires v.Null? || v.Bool? || v.Number? || v.String?
    ensures Translate(v, rt1, ext) == Translate(v, rt2, ext)
    ensures v.Null? ==> Translate(v, rt1, ext) == Ok(ResourceIr.Null)
    ensures v.Bool? ==> Translate(v, rt1, ext) == Ok(ResourceIr.Bool(v.b))
    ensures v.Number? ==> Translate(v, rt1, ext) == Ok(ResourceIr.Number(v.n))
    ensures v.String? ==> Translate(v, rt1, ext) == Ok(ResourceIr.String(v.s))
  {
  }

  /** items[lo..hi] translates iff each item does; the translation is then the
      items' translations in order, and otherwise the error of the first item
      that fails. */
  lemma {:induction false} RangeTranslation(items: seq<ResourceValue>, lo: nat, hi: nat, rt: ResourceTranslationInputs, ext: Collaborators)
    requires lo <= hi <= |items|
    ensures TranslateRange(items, lo, hi, rt, ext).Ok? <==> AllTranslate(items, lo, hi, rt, ext)
    ensures TranslateRange(items, lo, hi, rt, ext).Ok? ==>
      forall i :: lo <= i < hi ==>
        TranslateRange(items, lo, hi, rt, ext).value[i - lo] == Translate(items[i], rt, ext).value
    ensures TranslateRange(items, lo, hi, rt, ext).Err? ==>
      exists i :: lo <= i < hi && AllTranslate(items, lo, i, rt, ext) &&
        Translate(items[i], rt, ext) == Err(TranslateRange(items, lo, hi, rt, ext).error)
    decreases hi
  {
    if hi > lo {
      RangeTranslation(items, lo, hi - 1, rt, ext);
      var r := TranslateRange(items, lo, hi, rt, ext);
      if r.Err? && TranslateRange(items, lo, hi - 1, rt, ext).Ok? {
        assert AllTranslate(items, lo, hi - 1, rt, ext);
        assert Translate(items[hi - 1], rt, ext) == Err(r.error);
      }
    }
  }

  /** An array keeps its length and order: element i of the result is the
      translation of element i under the same context, and the result carries
      the context's complexity. The first failing element decides the error. */
  lemma ArrayTranslation(items: seq<ResourceValue>, rt: ResourceTranslationInputs, ext: Collaborators)
    ensures Translate(ResourceValue.Array(items), rt, ext).Ok? <==> AllTranslate(items, 0, |items|, rt, ext)
    ensures Translate(ResourceValue.Array(items), rt, ext).Ok? ==>
      var ir := Translate(ResourceValue.Array(items), rt, ext).value;
      ir.Array? && ir.complexity == rt.complexity && |ir.items| == |items| &&
      forall i :: 0 <= i < |items| ==> ir.items[i] == Translate(items[i], rt, ext).value
    ensures Translate(ResourceValue.Array(items), rt, ext).Err? ==>
      exists i :: 0 <= i < |items| && AllTranslate(items, 0, i, rt, ext) &&
        Translate(items[i], rt, ext) == Err(Translate(ResourceValue.Array(items), rt, ext).error)
  {
    RangeTranslation(items, 0, |items|, rt, ext);
  }

  /** `Fn::Join`: an empty operand list panics, a non-string separator is an
      error; otherwise the separator is kept and each later operand is
      translated in order under the same context. */
  lemma JoinTranslation(xs: seq<ResourceValue>, rt: ResourceTranslationInputs, ext: Collaborators)
    ensures |xs| == 0 ==> Translate(ResourceValue.Join(xs), rt, ext) == Err(EmptyJoin)
    ensures |xs| > 0 && !xs[0].String? ==>
      Translate(ResourceValue.Join(xs), rt, ext) == Err(JoinSeparatorNotString)
    ensures |xs| > 0 && xs[0].String? ==>
      (Translate(ResourceValue.Join(xs), rt, ext).Ok? <==> AllTranslate(xs, 1, |xs|, rt, ext))
    ensures Translate(ResourceValue.Join(xs), rt, ext).Ok? ==>
      var ir := Translate(ResourceValue.Join(xs), rt, ext).value;
      |xs| > 0 && xs[0].String? && ir.Join? && ir.separator == xs[0].s &&
      |ir.operands| == |xs| - 1 &&
      forall i :: 0 <= i < |xs| - 1 ==> ir.operands[i] == Translate(xs[i + 1], rt, ext).value
    ensures |xs| > 0 && xs[0].String? && Translate(ResourceValue.Join(xs), rt, ext).Err? ==>
      exists i :: 1 <= i < |xs| && AllTranslate(xs, 1, i, rt, ext) &&
        Translate(xs[i], rt, ext) == Err(Translate(ResourceValue.Join(xs), rt, ext).error)
  {
    if |xs| > 0 && xs[0].String? {
      RangeTranslation(xs, 1, |xs|, rt, ext);
    }
  }

  /** A join holding only its separator yields an empty operand list. */
  lemma JoinOfSeparatorOnly(sep: string, rt: ResourceTranslationInputs, ext: Collaborators)
    ensures Translate(ResourceValue.Join([ResourceValue.String(sep)]), rt, ext) == Ok(ResourceIr.Join(sep, []))
  {
  }

  /** `Fn::FindInMap`: the three operands, translated in order under the same
      context; the first that fails decides the error. */
  lemma FindInMapTranslation(m: ResourceValue, k1: ResourceValue, k2: ResourceValue, rt: ResourceTranslationInputs, ext: Collaborators)
    ensures Translate(ResourceValue.FindInMap(m, k1, k2), rt, ext).Ok? <==>
      Translate(m, rt, ext).Ok? && Translate(k1, rt, ext).Ok? && Translate(k2, rt, ext).Ok?
    ensures Translate(ResourceValue.FindInMap(m, k1, k2), rt, ext).Ok? ==>
      Translate(ResourceValue.FindInMap(m, k1, k2), rt, ext) ==
      Ok(ResourceIr.Map(Translate(m, rt, ext).value, Translate(k1, rt, ext).value, Translate(k2, rt, ext).value))
    ensures Translate(m, rt, ext).Err? ==>
      Translate(ResourceValue.FindInMap(m, k1, k2), rt, ext) == Err(Translate(m, rt, ext).error)
    ensures Translate(m, rt, ext).Ok? && Translate(k1, rt, ext).Err? ==>
      Translate(ResourceValue.FindInMap(m, k1, k2), rt, ext) == Err(Translate(k1, rt, ext).error)
    ensures Translate(m, rt, ext).Ok? && Translate(k1, rt, ext).Ok? && Translate(k2, rt, ext).Err? ==>
      Translate(ResourceValue.FindInMap(m, k1, k2), rt, ext) == Err(Translate(k2, rt, ext).error)
  {
  }

  /** `Fn::If`: the condition must be a string; both branches are translated
      under the same context. */
  lemma IfTranslation(c: ResourceValue, t: ResourceValue, f: ResourceValue, rt: ResourceTranslationInputs, ext: Collaborators)
    ensures !c.String? ==> Translate(ResourceValue.If(c, t, f), rt, ext) == Err(IfConditionNotString)
    ensures c.String? ==>
      (Translate(ResourceValue.If(c, t, f), rt, ext).Ok? <==> Translate(t, rt, ext).Ok? && Translate(f, rt, ext).Ok?)
    ensures Translate(ResourceValue.If(c, t, f), rt, ext).Ok? ==>
      Translate(ResourceValue.If(c, t, f), rt, ext) ==
      Ok(ResourceIr.If(c.s, Translate(t, rt, ext).value, Translate(f, rt, ext).value))
    ensures c.String? && Translate(t, rt, ext).Err? ==>
      Translate(ResourceValue.If(c, t, f), rt, ext) == Err(Translate(t, rt, ext).error)
    ensures c.String? && Translate(t, rt, ext).Ok? && Translate(f, rt, ext).Err? ==>
      Translate(ResourceValue.If(c, t, f), rt, ext) == Err(Translate(f, rt, ext).error)
  {
  }

  /** `Fn::GetAtt`: both operands must be strings and are copied verbatim. */
  lemma GetAttTranslation(name: ResourceValue, attribute: ResourceValue, rt: ResourceTranslationInputs, ext: Collaborators)
    ensures Translate(ResourceValue.GetAtt(name, attribute), rt, ext).Ok? <==> name.String? && attribute.String?
    ensures name.String? && attribute.String? ==>
      Translate(ResourceValue.GetAtt(name, attribute), rt, ext) == Ok(ResourceIr.GetAtt(name.s, attribute.s))
    ensures !(name.String? && attribute.String?) ==>
      Translate(ResourceValue.GetAtt(name, attribute), rt, ext) == Err(GetAttNotString)
  {
  }

  /** A successful translation keeps the raw value's top-level shape. */
  lemma TranslateShape(v: ResourceValue, rt: ResourceTranslationInputs, ext: Collaborators)
    requires Translate(v, rt, ext).Ok?
    ensures SameShape(v, Translate(v, rt, ext).value)
  {
    if v.Object? {
      EntriesKeys(v, |v.entries|, rt, ext);
    }
  }

  /** Under a Simple complexity an object keeps its keys, and each value is
      translated under the unchanged context; the first value that fails
      decides the error. */
  lemma SimpleObjectTranslation(entries: seq<(string, ResourceValue)>, rt: ResourceTranslationInputs, ext: Collaborators)
    requires rt.complexity.Simple?
    ensures Translate(ResourceValue.Object(entries), rt, ext).Ok? <==>
      forall i :: 0 <= i < |entries| ==> Translate(entries[i].1, rt, ext).Ok?
    ensures Translate(ResourceValue.Object(entries), rt, ext).Ok? ==>
      var ir := Translate(ResourceValue.Object(entries), rt, ext).value;
      ir.Object? && ir.complexity == rt.complexity && ir.properties.Keys == KeysOf(entries) &&
      forall i :: 0 <= i < |entries| && LastOccurrence(entries, i, |entries|) ==>
        entries[i].0 in ir.properties && Translate(entries[i].1, rt, ext) == Ok(ir.properties[entries[i].0])
    ensures forall i :: (0 <= i < |entries| && Translate(entries[i].1, rt, ext).Err? &&
                         forall j :: 0 <= j < i ==> Translate(entries[j].1, rt, ext).Ok?) ==>
      Translate(ResourceValue.Object(entries), rt, ext) == Err(Translate(entries[i].1, rt, ext).error)
  {
    var v := ResourceValue.Object(entries);
    var n := |entries|;
    assert forall i :: 0 <= i < n ==> EntryResult(rt, ext, entries[i]) == Translate(entries[i].1, rt, ext);
    EntriesOk(v, n, rt, ext);
    if Translate(v, rt, ext).Ok? {
      EntriesKeys(v, n, rt, ext);
      forall i | 0 <= i < n && LastOccurrence(entries, i, n)
        ensures entries[i].0 in Translate(v, rt, ext).value.properties
        ensures Translate(entries[i].1, rt, ext) == Ok(Translate(v, rt, ext).value.properties[entries[i].0])
      {
        EntryValue(v, n, i, rt, ext);
      }
    }
    forall i | 0 <= i < n && Translate(entries[i].1, rt, ext).Err? &&
      forall j :: 0 <= j < i ==> Translate(entries[j].1, rt, ext).Ok?
      ensures Translate(v, rt, ext) == Err(Translate(entries[i].1, rt, ext).error)
    {
      EntriesOk(v, i, rt, ext);
      EntriesFirstFailure(v, i, rt, ext);
    }
  }

  /** Under a Complex complexity each key is looked up in the current property
      type: a missing property type, type entry or property table aborts at
      the first entry; the first undeclared key aborts rather than being
      skipped; each value is translated under the child context of its key's
      rule; and the object keeps the parent's complexity. */
  lemma ComplexObjectTranslation(entries: seq<(string, ResourceValue)>, rt: ResourceTranslationInputs, ext: Collaborators)
    requires rt.complexity.Complex?
    ensures |entries| > 0 && rt.propertyType.None? ==>
      Translate(ResourceValue.Object(entries), rt, ext) == Err(MissingPropertyType)
    ensures (|entries| > 0 && rt.propertyType.Some? &&
             rt.propertyType.value !in rt.specification.propertyTypes) ==>
      Translate(ResourceValue.Object(entries), rt, ext) == Err(UnknownPropertyType(rt.propertyType.value))
    ensures (|entries| > 0 && rt.propertyType.Some? &&
             rt.propertyType.value in rt.specification.propertyTypes &&
             rt.specification.propertyTypes[rt.propertyType.value].properties.None?) ==>
      Translate(ResourceValue.Object(entries), rt, ext) == Err(PropertyTypeWithoutProperties(rt.propertyType.value))
    ensures forall i :: (0 <= i < |entries| && rt.propertyType.Some? &&
                         rt.propertyType.value in rt.specification.propertyTypes &&
                         rt.specification.propertyTypes[rt.propertyType.value].properties.Some? &&
                         entries[i].0 !in rt.specification.propertyTypes[rt.propertyType.value].properties.value &&
                         forall j :: 0 <= j < i ==> EntryResult(rt, ext, entries[j]).Ok?) ==>
      Translate(ResourceValue.Object(entries), rt, ext) == Err(UnknownProperty(rt.propertyType.value, entries[i].0))
    ensures Translate(ResourceValue.Object(entries), rt, ext).Ok? ==>
      var ir := Translate(ResourceValue.Object(entries), rt, ext).value;
      ir.Object? && ir.complexity == rt.complexity && ir.properties.Keys == KeysOf(entries) &&
      (|entries| > 0 ==>
        rt.propertyType.Some? && rt.propertyType.value in rt.specification.propertyTypes &&
        var rules := rt.specification.propertyTypes[rt.propertyType.value].properties;
        rules.Some? && KeysOf(entries) <= rules.value.Keys &&
        forall i :: 0 <= i < |entries| && LastOccurrence(entries, i, |entries|) ==>
          entries[i].0 in ir.properties &&
          Translate(entries[i].1, ChildInputs(rt, rules.value[entries[i].0], ext), ext) ==
          Ok(ir.properties[entries[i].0]))
  {
    var v := ResourceValue.Object(entries);
    var n := |entries|;
    if n > 0 && EntryInputs(rt, entries[0].0, ext).Err? {
      EntriesFirstFailure(v, 0, rt, ext);
    }
    forall i | 0 <= i < n && rt.propertyType.Some? &&
      rt.propertyType.value in rt.specification.propertyTypes &&
      rt.specification.propertyTypes[rt.propertyType.value].properties.Some? &&
      entries[i].0 !in rt.specification.propertyTypes[rt.propertyType.value].properties.value &&
      forall j :: 0 <= j < i ==> EntryResult(rt, ext, entries[j]).Ok?
      ensures Translate(v, rt, ext) == Err(UnknownProperty(rt.propertyType.value, entries[i].0))
    {
      EntriesOk(v, i, rt, ext);
      EntriesFirstFailure(v, i, rt, ext);
    }
    if Translate(v, rt, ext).Ok? {
      EntriesKeys(v, n, rt, ext);
      if n > 0 {
        EntriesOk(v, n, rt, ext);
        assert EntryResult(rt, ext, entries[0]).Ok?;
        var rules := rt.specification.propertyTypes[rt.propertyType.value].properties;
        forall x | x in KeysOf(entries) ensures x in rules.value {
          var i := KeyWitness(entries, n, x);
          assert EntryResult(rt, ext, entries[i]).Ok?;
        }
        forall i | 0 <= i < n && LastOccurrence(entries, i, n)
          ensures entries[i].0 in Translate(v, rt, ext).value.properties
          ensures Translate(entries[i].1, ChildInputs(rt, rules.value[entries[i].0], ext), ext) ==
            Ok(Translate(v, rt, ext).value.properties[entries[i].0])
        {
          assert EntryResult(rt, ext, entries[i]).Ok?;
          EntryValue(v, n, i, rt, ext);
        }
      }
    }
  }

  /** An override object whose values all translate under the ambient context. */
  ghost predicate OverrideObjectOk(o: ResourceValue, rt: ResourceTranslationInputs, ext: Collaborators) {
    o.Object? && forall i :: 0 <= i < |o.entries| ==> Translate(o.entries[i].1, rt, ext).Ok?
  }

  /** A key is one of the override keys iff some override object names it. */
  lemma {:induction false} OverrideKeysMember(args: seq<ResourceValue>, j: nat, x: string)
    requires 1 <= j <= |args|
    ensures x in OverrideKeys(args, j) <==>
      exists a :: 1 <= a < j && args[a].Object? && x in KeysOf(args[a].entries)
    decreases j
  {
    if j > 1 {
      OverrideKeysMember(args, j - 1, x);
      if args[j - 1].Object? && x in KeysOf(args[j - 1].entries) {
        assert 1 <= j - 1 < j;
      }
    }
  }

  /** Merging the override objects args[1..j] succeeds iff each is an object
      whose values translate. */
  lemma {:induction false} SubOverridesOk(v: ResourceValue, j: nat, rt: ResourceTranslationInputs, ext: Collaborators)
    requires v.Sub? && 1 <= j <= |v.args|
    ensures SubOverrides(v, j, rt, ext).Ok? <==>
      forall a :: 1 <= a < j ==> OverrideObjectOk(v.args[a], rt, ext)
    decreases j
  {
    if j > 1 {
      SubOverridesOk(v, j - 1, rt, ext);
      SubOverridesStep(v, j, rt, ext);
      var obj := v.args[j - 1];
      var prev := SubOverrides(v, j - 1, rt, ext);
      if prev.Ok? && obj.Object? {
        OverridesOk(obj, |obj.entries|, rt, ext, prev.value);
      }
    }
  }

  /** Entry i of override object a is the one whose value the merged table of
      args[1..j] keeps for its key: it is the key's last entry in that object,
      and no later override object before j names the key. */
  ghost predicate Wins(args: seq<ResourceValue>, j: nat, a: nat, i: nat)
    requires j <= |args|
  {
    1 <= a < j && args[a].Object? && i < |args[a].entries| &&
    LastOccurrence(args[a].entries, i, |args[a].entries|) &&
    forall b :: a < b < j ==> !(args[b].Object? && args[a].entries[i].0 in KeysOf(args[b].entries))
  }

  /** The merged table keeps, for a key, the translation of its winning entry:
      a later override object overrides an earlier one. */
  lemma {:induction false} SubOverrideValue(v: ResourceValue, j: nat, a: nat, i: nat, rt: ResourceTranslationInputs, ext: Collaborators)
    requires v.Sub? && 1 <= j <= |v.args|
    requires SubOverrides(v, j, rt, ext).Ok?
    requires Wins(v.args, j, a, i)
    ensures v.args[a].entries[i].0 in SubOverrides(v, j, rt, ext).value
    ensures Translate(v.args[a].entries[i].1, rt, ext) == Ok(SubOverrides(v, j, rt, ext).value[v.args[a].entries[i].0])
    decreases j
  {
    SubOverridesStep(v, j, rt, ext);
    var prev := SubOverrides(v, j - 1, rt, ext).value;
    var obj := v.args[j - 1];
    var n := |obj.entries|;
    if a == j - 1 {
      OverrideValue(obj, n, i, rt, ext, prev);
    } else {
      assert Wins(v.args, j - 1, a, i);
      SubOverrideValue(v, j - 1, a, i, rt, ext);
      var key := v.args[a].entries[i].0;
      assert key !in KeysOf(obj.entries);
      forall e | 0 <= e < n ensures obj.entries[e].0 != key {
        KeyUpToMember(obj.entries, n, e);
      }
      OverrideKeeps(obj, n, key, rt, ext, prev);
    }
  }

  /** Merging the override objects args[1..j] of a `Fn::Sub`: it succeeds iff
      each is an object whose values translate; the table then has exactly
      their keys, and for each key the value of its winning entry. */
  lemma SubOverridesTranslation(v: ResourceValue, j: nat, rt: ResourceTranslationInputs, ext: Collaborators)
    requires v.Sub? && 1 <= j <= |v.args|
    ensures SubOverrides(v, j, rt, ext).Ok? <==>
      forall a :: 1 <= a < j ==> OverrideObjectOk(v.args[a], rt, ext)
    ensures SubOverrides(v, j, rt, ext).Ok? ==>
      forall x :: x in SubOverrides(v, j, rt, ext).value <==>
        exists a :: 1 <= a < j && v.args[a].Object? && x in KeysOf(v.args[a].entries)
    ensures SubOverrides(v, j, rt, ext).Ok? ==>
      forall a: nat, i: nat :: Wins(v.args, j, a, i) ==>
        v.args[a].entries[i].0 in SubOverrides(v, j, rt, ext).value &&
        Translate(v.args[a].entries[i].1, rt, ext) == Ok(SubOverrides(v, j, rt, ext).value[v.args[a].entries[i].0])
  {
    SubOverridesOk(v, j, rt, ext);
    if SubOverrides(v, j, rt, ext).Ok? {
      SubOverridesKeys(v, j, rt, ext);
      forall x ensures x in OverrideKeys(v.args, j) <==>
        exists a :: 1 <= a < j && v.args[a].Object? && x in KeysOf(v.args[a].entries)
      {
        OverrideKeysMember(v.args, j, x);
      }
      forall a: nat, i: nat | Wins(v.args, j, a, i)
        ensures v.args[a].entries[i].0 in SubOverrides(v, j, rt, ext).value
        ensures Translate(v.args[a].entries[i].1, rt, ext) == Ok(SubOverrides(v, j, rt, ext).value[v.args[a].entries[i].0])
      {
        SubOverrideValue(v, j, a, i, rt, ext);
      }
    }
  }

  /** `Fn::Sub`: an empty argument list panics; a non-string template, a
      non-object override or a failing override value (after the earlier
      overrides succeeded, the first such failure) and a
      template the tokenizer rejects are errors; otherwise there is exactly one
      IR per parsed fragment, in order: literal text as a String, a variable as
      its merged override if present and else as a reference to the symbol. */
  lemma SubTranslation(args: seq<ResourceValue>, rt: ResourceTranslationInputs, ext: Collaborators)
    ensures |args| == 0 ==> Translate(ResourceValue.Sub(args), rt, ext) == Err(EmptySub)
    ensures |args| > 0 && !args[0].String? ==> Translate(ResourceValue.Sub(args), rt, ext) == Err(SubTemplateNotString)
    ensures forall a :: (1 <= a < |args| && args[0].String? && !args[a].Object? &&
                         (forall b :: 1 <= b < a ==> OverrideObjectOk(args[b], rt, ext))) ==>
      Translate(ResourceValue.Sub(args), rt, ext) == Err(SubOverridesNotObject)
    ensures forall a: nat, i: nat :: (1 <= a < |args| && args[0].String? &&
                         (forall b :: 1 <= b < a ==> OverrideObjectOk(args[b], rt, ext)) &&
                         args[a].Object? && i < |args[a].entries| &&
                         (forall e :: 0 <= e < i ==> Translate(args[a].entries[e].1, rt, ext).Ok?) &&
                         Translate(args[a].entries[i].1, rt, ext).Err?) ==>
      Translate(ResourceValue.Sub(args), rt, ext) == Err(Translate(args[a].entries[i].1, rt, ext).error)
    ensures (|args| > 0 && args[0].String? && SubOverrides(ResourceValue.Sub(args), |args|, rt, ext).Ok? &&
             ext.subParseTree(args[0].s).Err?) ==>
      Translate(ResourceValue.Sub(args), rt, ext) == Err(SubParse(ext.subParseTree(args[0].s).error))
    ensures Translate(ResourceValue.Sub(args), rt, ext).Ok? ==>
      |args| > 0 && args[0].String? && ext.subParseTree(args[0].s).Ok? &&
      (forall a :: 1 <= a < |args| ==> OverrideObjectOk(args[a], rt, ext)) &&
      var table := SubOverrides(ResourceValue.Sub(args), |args|, rt, ext).value;
      var fragments := ext.subParseTree(args[0].s).value;
      var ir := Translate(ResourceValue.Sub(args), rt, ext).value;
      ir.Sub? && |ir.fragments| == |fragments| &&
      forall i :: 0 <= i < |fragments| ==>
        ir.fragments[i] ==
          match fragments[i]
          case Literal(text) => ResourceIr.String(text)
          case Variable(x) => if x in table then table[x] else ResourceIr.Ref(ResolveRef(x, rt.parseTree, ext))
  {
    var v := ResourceValue.Sub(args);
    if |args| > 0 {
      SubOverridesOk(v, |args|, rt, ext);
      forall a | 1 <= a < |args| && args[0].String? && !args[a].Object? &&
        (forall b :: 1 <= b < a ==> OverrideObjectOk(args[b], rt, ext))
        ensures Translate(v, rt, ext) == Err(SubOverridesNotObject)
      {
        SubOverrideNotObject(args, a, rt, ext);
      }
      forall a: nat, i: nat | 1 <= a < |args| && args[0].String? &&
        (forall b :: 1 <= b < a ==> OverrideObjectOk(args[b], rt, ext)) &&
        args[a].Object? && i < |args[a].entries| &&
        (forall e :: 0 <= e < i ==> Translate(args[a].entries[e].1, rt, ext).Ok?) &&
        Translate(args[a].entries[i].1, rt, ext).Err?
        ensures Translate(v, rt, ext) == Err(Translate(args[a].entries[i].1, rt, ext).error)
      {
        SubOverrideValueFailure(args, a, i, rt, ext);
      }
    }
  }

  /** The first override that is not an object decides the error of `Fn::Sub`. */
  lemma SubOverrideNotObject(args: seq<ResourceValue>, a: nat, rt: ResourceTranslationInputs, ext: Collaborators)
    requires 1 <= a < |args| && args[0].String? && !args[a].Object?
    requires forall b :: 1 <= b < a ==> OverrideObjectOk(args[b], rt, ext)
    ensures Translate(ResourceValue.Sub(args), rt, ext) == Err(SubOverridesNotObject)
  {
    var v := ResourceValue.Sub(args);
    SubOverridesOk(v, a, rt, ext);
    SubOverridesStep(v, a + 1, rt, ext);
    SubOverridesSticky(v, a + 1, |args|, rt, ext);
  }

  /** The first override value that fails decides the error of `Fn::Sub`. */
  lemma SubOverrideValueFailure(args: seq<ResourceValue>, a: nat, i: nat, rt: ResourceTranslationInputs, ext: Collaborators)
    requires 1 <= a < |args| && args[0].String?
    requires forall b :: 1 <= b < a ==> OverrideObjectOk(args[b], rt, ext)
    requires args[a].Object? && i < |args[a].entries|
    requires forall e :: 0 <= e < i ==> Translate(args[a].entries[e].1, rt, ext).Ok?
    requires Translate(args[a].entries[i].1, rt, ext).Err?
    ensures Translate(ResourceValue.Sub(args), rt, ext) == Err(Translate(args[a].entries[i].1, rt, ext).error)
  {
    var v := ResourceValue.Sub(args);
    SubOverridesOk(v, a, rt, ext);
    SubOverridesStep(v, a + 1, rt, ext);
    OverridesFirstFailure(args[a], i, rt, ext, SubOverrides(v, a, rt, ext).value);
    SubOverridesSticky(v, a + 1, |args|, rt, ext);
  }

  /** A `Fn::Sub` template "${A}-x-${B}" with no override object resolves to
      its three fragments in their source order. */
  lemma SubOrderScenario(rt: ResourceTranslationInputs, ext: Collaborators)
    requires ext.subParseTree("${A}-x-${B}") ==
      Ok([Variable("A"), Literal("-x-"), Variable("B")])
    ensures Translate(ResourceValue.Sub([ResourceValue.String("${A}-x-${B}")]), rt, ext) ==
      Ok(ResourceIr.Sub([
        ResourceIr.Ref(ResolveRef("A", rt.parseTree, ext)),
        ResourceIr.String("-x-"),
        ResourceIr.Ref(ResolveRef("B", rt.parseTree, ext))]))
  {
    var v := ResourceValue.Sub([ResourceValue.String("${A}-x-${B}")]);
    assert SubOverrides(v, 1, rt, ext) == Ok(map[]);
    var fragments := ResolveFragments([Variable("A"), Literal("-x-"), Variable("B")], map[], rt, ext);
    assert fragments == [
      ResourceIr.Ref(ResolveRef("A", rt.parseTree, ext)),
      ResourceIr.String("-x-"),
      ResourceIr.Ref(ResolveRef("B", rt.parseTree, ext))];
  }

  /** A `Fn::Sub` variable named in an override object resolves to the
      override's translation, not to a reference. */
  lemma OverridePrecedenceScenario(rt: ResourceTranslationInputs, ext: Collaborators)
    requires ext.subParseTree("${A}") == Ok([Variable("A")])
    ensures Translate(ResourceValue.Sub([ResourceValue.String("${A}"),
                                         ResourceValue.Object([("A", ResourceValue.String("literal"))])]), rt, ext) ==
      Ok(ResourceIr.Sub([ResourceIr.String("literal")]))
  {
    var obj := ResourceValue.Object([("A", ResourceValue.String("literal"))]);
    var v := ResourceValue.Sub([ResourceValue.String("${A}"), obj]);
    var table := map["A" := ResourceIr.String("literal")];
    assert Translate(ResourceValue.String("literal"), rt, ext) == Ok(ResourceIr.String("literal"));
    assert OverrideEntries(obj, 1, rt, ext, map[]) == Ok(table);
    assert SubOverrides(v, 2, rt, ext) == Ok(table);
    assert ResolveFragments([Variable("A")], table, rt, ext) == [ResourceIr.String("literal")];
  }

  /** The batch of instructions succeeds iff each resource's instruction
      does; it then holds one instruction per resource, in declaration order;
      otherwise its error is that of the first resource that fails. */
  lemma InstructionsTranslation(tree: CloudformationParseTree, spec: Specification, ext: Collaborators)
    ensures Instructions(tree, |tree.resources|, spec, ext).Ok? <==>
      forall i :: 0 <= i < |tree.resources| ==> InstructionFor(tree.resources[i], tree, spec, ext).Ok?
    ensures Instructions(tree, |tree.resources|, spec, ext).Ok? ==>
      forall i :: 0 <= i < |tree.resources| ==>
        Instructions(tree, |tree.resources|, spec, ext).value[i] == InstructionFor(tree.resources[i], tree, spec, ext).value
    ensures forall i :: (0 <= i < |tree.resources| && InstructionFor(tree.resources[i], tree, spec, ext).Err? &&
                         forall j :: 0 <= j < i ==> InstructionFor(tree.resources[j], tree, spec, ext).Ok?) ==>
      Instructions(tree, |tree.resources|, spec, ext) == Err(InstructionFor(tree.resources[i], tree, spec, ext).error)
  {
    var n := |tree.resources|;
    InstructionsOk(tree, n, spec, ext);
    if Instructions(tree, n, spec, ext).Ok? {
      forall i | 0 <= i < n
        ensures Instructions(tree, n, spec, ext).value[i] == InstructionFor(tree.resources[i], tree, spec, ext).value
      {
        InstructionAt(tree, n, i, spec, ext);
      }
    }
    forall i | 0 <= i < n && InstructionFor(tree.resources[i], tree, spec, ext).Err? &&
      forall j :: 0 <= j < i ==> InstructionFor(tree.resources[j], tree, spec, ext).Ok?
      ensures Instructions(tree, n, spec, ext) == Err(InstructionFor(tree.resources[i], tree, spec, ext).error)
    {
      InstructionsOk(tree, i, spec, ext);
      InstructionsFirstFailure(tree, i, spec, ext);
    }
  }

  /** The instruction for one resource copies its name, condition and type;
      its properties have exactly the resource's property names, each the
      translation of the name's last occurrence under the context its rule
      selects. An unknown resource type, a type without a property table and
      the first undeclared property name abort. */
  lemma InstructionFields(res: ResourceDecl, tree: CloudformationParseTree, spec: Specification, ext: Collaborators)
    ensures res.resourceType !in spec.resourceTypes ==>
      InstructionFor(res, tree, spec, ext) == Err(UnknownResourceType(res.resourceType))
    ensures (res.resourceType in spec.resourceTypes && |res.properties| > 0 &&
             spec.resourceTypes[res.resourceType].properties.None?) ==>
      InstructionFor(res, tree, spec, ext) == Err(ResourceTypeWithoutProperties(res.resourceType))
    ensures forall i :: (0 <= i < |res.properties| && res.resourceType in spec.resourceTypes &&
                         spec.resourceTypes[res.resourceType].properties.Some? &&
                         res.properties[i].0 !in spec.resourceTypes[res.resourceType].properties.value &&
                         forall j :: 0 <= j < i ==> PropertyResult(res, tree, spec, ext, res.properties[j]).Ok?) ==>
      InstructionFor(res, tree, spec, ext) == Err(UnknownResourceProperty(res.resourceType, res.properties[i].0))
    ensures InstructionFor(res, tree, spec, ext).Ok? ==>
      var ins := InstructionFor(res, tree, spec, ext).value;
      ins.name == res.name && ins.condition == res.condition && ins.resourceType == res.resourceType &&
      ins.properties.Keys == KeysOf(res.properties) &&
      res.resourceType in spec.resourceTypes &&
      (|res.properties| > 0 ==>
        var rules := spec.resourceTypes[res.resourceType].properties;
        rules.Some? && KeysOf(res.properties) <= rules.value.Keys &&
        forall i :: 0 <= i < |res.properties| && LastOccurrence(res.properties, i, |res.properties|) ==>
          res.properties[i].0 in ins.properties &&
          Translate(res.properties[i].1,
                    InitialInputs(tree, spec, rules.value[res.properties[i].0], res.resourceType, ext), ext) ==
          Ok(ins.properties[res.properties[i].0]))
  {
    var n := |res.properties|;
    if res.resourceType in spec.resourceTypes {
      if n > 0 && spec.resourceTypes[res.resourceType].properties.None? {
        PropertiesFirstFailure(res, 0, tree, spec, ext);
      }
      forall i | 0 <= i < n &&
        spec.resourceTypes[res.resourceType].properties.Some? &&
        res.properties[i].0 !in spec.resourceTypes[res.resourceType].properties.value &&
        forall j :: 0 <= j < i ==> PropertyResult(res, tree, spec, ext, res.properties[j]).Ok?
        ensures InstructionFor(res, tree, spec, ext) == Err(UnknownResourceProperty(res.resourceType, res.properties[i].0))
      {
        PropertiesOk(res, i, tree, spec, ext);
        PropertiesFirstFailure(res, i, tree, spec, ext);
      }
      var props := TranslateProperties(res, n, tree, spec, ext);
      if props.Ok? {
        PropertiesKeys(res, n, tree, spec, ext);
        if n > 0 {
          PropertiesOk(res, n, tree, spec, ext);
          assert PropertyResult(res, tree, spec, ext, res.properties[0]).Ok?;
          var rules := spec.resourceTypes[res.resourceType].properties;
          forall x | x in KeysOf(res.properties) ensures x in rules.value {
            var i := KeyWitness(res.properties, n, x);
            assert PropertyResult(res, tree, spec, ext, res.properties[i]).Ok?;
          }
          forall i | 0 <= i < n && LastOccurrence(res.properties, i, n)
            ensures res.properties[i].0 in props.value
            ensures Translate(res.properties[i].1,
                              InitialInputs(tree, spec, rules.value[res.properties[i].0], res.resourceType, ext), ext) ==
              Ok(props.value[res.properties[i].0])
          {
            assert PropertyResult(res, tree, spec, ext, res.properties[i]).Ok?;
            PropertyValue(res, n, i, tree, spec, ext);
          }
        }
      }
    }
  }
}
