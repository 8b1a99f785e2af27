/** Conditional registration-form fields (lib/actions/registration-form.ts): the
    bounded walk that guards against cycles, and the operations that change a form.
    One form is modelled; a field is named by its key, which is unique in a form. */
module FormFields {
  import opened Common
  import opened SetSizes

  type Key = string

  /** `conditionalOn` per key, as `loadConditionalOnMap` builds it. */
  type Parents = map<Key, Option<Key>>

  datatype Field = Field(caption: string, required: bool, displayOrder: int, conditionalOn: Option<Key>)

  type Form = map<Key, Field>

  datatype FormError = UnknownParent | WouldCycle | WalkTooLong | KeyTaken | NotFound | HasDependents | NotInForm

  function ParentsOf(form: Form): Parents {
    map k | k in form :: form[k].conditionalOn
  }

  // ---------------------------------------------------------------------------
  // The walk
  // ---------------------------------------------------------------------------

  /** The key `n` hops up from `k`, while there is one. */
  ghost function Ancestor(m: Parents, k: Key, n: nat): Option<Key> {
    if n == 0 then Some(k)
    else
      var below := Ancestor(m, k, n - 1);
      if below.Some? && below.value in m then m[below.value] else None
  }

  /** What the walk decides, for any data, corrupt or not. */
  ghost function Check(m: Parents, fieldKey: Key, conditionalOn: Key): Option<FormError> {
    if conditionalOn !in m then Some(UnknownParent)
    else if exists n :: 0 <= n <= |m| && Ancestor(m, conditionalOn, n) == Some(fieldKey) then Some(WouldCycle)
    else if Ancestor(m, conditionalOn, |m|).Some? then Some(WalkTooLong)
    else None
  }

  lemma {:induction false} AncestorEnds(m: Parents, k: Key, i: nat, j: nat)
    requires i <= j && Ancestor(m, k, i) == None
    ensures Ancestor(m, k, j) == None
    decreases j - i
  {
    if i < j {
      AncestorEnds(m, k, i, j - 1);
    }
  }

  /** `assertNoConditionalCycle`: the loop over `current` and `steps`. */
  method AssertNoConditionalCycle(m: Parents, fieldKey: Key, conditionalOn: Key) returns (error: Option<FormError>)
    ensures error == Check(m, fieldKey, conditionalOn)
  {
    if conditionalOn !in m {
      return Some(UnknownParent);
    }
    var maxSteps := |m|;
    var current, steps := Some(conditionalOn), 0;
    while current.Some?
      invariant 0 <= steps <= maxSteps
      invariant current == Ancestor(m, conditionalOn, steps)
      invariant forall n :: 0 <= n < steps ==> Ancestor(m, conditionalOn, n) != Some(fieldKey)
      decreases maxSteps - steps, current.Some?
    {
      if current.value == fieldKey {
        return Some(WouldCycle);
      }
      if steps + 1 > maxSteps {
        assert forall n :: 0 <= n <= |m| ==> Ancestor(m, conditionalOn, n) != Some(fieldKey);
        return Some(WalkTooLong);
      }
      steps := steps + 1;
      current := if current.value in m then m[current.value] else None;
    }
    forall n | steps <= n <= |m|
      ensures Ancestor(m, conditionalOn, n) == None
    {
      AncestorEnds(m, conditionalOn, steps, n);
    }
    error := None;
  }

  // ---------------------------------------------------------------------------
  // Well-formed forms
  // ---------------------------------------------------------------------------

  ghost predicate Closed(m: Parents) {
    forall k :: k in m && m[k].Some? ==> m[k].value in m
  }

  /** No field is above itself. */
  ghost predicate Acyclic(m: Parents) {
    forall k, n: nat :: k in m && n > 0 ==> Ancestor(m, k, n) != Some(k)
  }

  ghost predicate GoodForm(m: Parents) {
    Closed(m) && Acyclic(m)
  }

  ghost predicate Ends(m: Parents, k: Key) {
    exists n: nat :: Ancestor(m, k, n) == None
  }

  lemma {:induction false} AncestorPlus(m: Parents, k: Key, i: nat, j: nat)
    ensures Ancestor(m, k, i + j)
         == if Ancestor(m, k, i).Some? then Ancestor(m, Ancestor(m, k, i).value, j) else None
    decreases j
  {
    if j > 0 {
      AncestorPlus(m, k, i, j - 1);
      assert i + j - 1 == i + (j - 1);
    }
  }

  lemma {:induction false} AncestorInForm(m: Parents, k: Key, n: nat)
    requires Closed(m) && k in m && Ancestor(m, k, n).Some?
    ensures Ancestor(m, k, n).value in m
  {
    if n > 0 {
      AncestorInForm(m, k, n - 1);
    }
  }

  /** The keys on the first n hops of a chain. */
  ghost function Visited(m: Parents, k: Key, n: nat): set<Key>
    requires Ancestor(m, k, n).Some?
  {
    (if n == 0 then {} else Visited(m, k, n - 1)) + {Ancestor(m, k, n).value}
  }

  lemma {:induction false} VisitedAt(m: Parents, k: Key, n: nat, a: Key) returns (i: nat)
    requires Ancestor(m, k, n).Some? && a in Visited(m, k, n)
    ensures i <= n && Ancestor(m, k, i) == Some(a)
    decreases n
  {
    if a == Ancestor(m, k, n).value {
      i := n;
    } else {
      i := VisitedAt(m, k, n - 1, a);
    }
  }

  /** The first n + 1 keys of a chain that never returns are n + 1 keys. */
  lemma {:induction false} VisitedSize(m: Parents, k: Key, n: nat)
    requires GoodForm(m) && k in m && Ancestor(m, k, n).Some?
    ensures Visited(m, k, n) <= m.Keys && |Visited(m, k, n)| == n + 1
    decreases n
  {
    AncestorInForm(m, k, n);
    var last := Ancestor(m, k, n).value;
    if n > 0 {
      VisitedSize(m, k, n - 1);
      if last in Visited(m, k, n - 1) {
        var i := VisitedAt(m, k, n - 1, last);
        AncestorPlus(m, k, i, n - i);
        assert false;
      }
    }
  }

  /** Pigeonhole: on a good form every chain ends within the number of fields. */
  lemma GoodChainsEnd(m: Parents, k: Key)
    requires GoodForm(m) && k in m
    ensures Ancestor(m, k, |m|) == None
  {
    assert |m| == |m.Keys|;
    if Ancestor(m, k, |m|).Some? {
      VisitedSize(m, k, |m|);
      SubsetSize(Visited(m, k, |m|), m.Keys);
    }
  }

  lemma {:induction false} ReturningChainNeverEnds(m: Parents, k: Key, period: nat, n: nat)
    requires period > 0 && Ancestor(m, k, period) == Some(k)
    ensures Ancestor(m, k, n).Some?
    decreases n
  {
    if n < period {
      if Ancestor(m, k, n) == None { AncestorEnds(m, k, n, period); }
    } else {
      ReturningChainNeverEnds(m, k, period, n - period);
      AncestorPlus(m, k, period, n - period);
    }
  }

  /** Acyclic means: every chain ends. */
  lemma GoodIffChainsEnd(m: Parents)
    requires Closed(m)
    ensures Acyclic(m) <==> forall k :: k in m ==> Ends(m, k)
  {
    if Acyclic(m) {
      forall k | k in m ensures Ends(m, k) { GoodChainsEnd(m, k); }
    } else {
      var k, n: nat :| k in m && n > 0 && Ancestor(m, k, n) == Some(k);
      forall i: nat ensures Ancestor(m, k, i).Some? { ReturningChainNeverEnds(m, k, n, i); }
      assert !Ends(m, k);
    }
  }

  // ---------------------------------------------------------------------------
  // The check is exact
  // ---------------------------------------------------------------------------

  ghost predicate SelfOrDescendant(m: Parents, k: Key, ancestor: Key) {
    exists n: nat :: Ancestor(m, k, n) == Some(ancestor)
  }

  /** On a good form the walk accepts precisely the existing fields that are neither
      the field itself nor below it, and its step limit never trips. */
  lemma CheckIsExact(m: Parents, fieldKey: Key, conditionalOn: Key)
    requires GoodForm(m)
    ensures Check(m, fieldKey, conditionalOn) != Some(WalkTooLong)
    ensures Check(m, fieldKey, conditionalOn) == None
       <==> conditionalOn in m && !SelfOrDescendant(m, conditionalOn, fieldKey)
  {
    if conditionalOn in m {
      GoodChainsEnd(m, conditionalOn);
      if n: nat :| Ancestor(m, conditionalOn, n) == Some(fieldKey) {
        if n > |m| { AncestorEnds(m, conditionalOn, |m|, n); }
      }
    }
  }

  /** Even on corrupt data an accepted parent's chain ends and avoids the field. */
  lemma AcceptedChain(m: Parents, fieldKey: Key, conditionalOn: Key)
    requires Check(m, fieldKey, conditionalOn) == None
    ensures Ancestor(m, conditionalOn, |m|) == None && !SelfOrDescendant(m, conditionalOn, fieldKey)
  {
    forall n: nat
      ensures Ancestor(m, conditionalOn, n) != Some(fieldKey)
    {
      if n > |m| { AncestorEnds(m, conditionalOn, |m|, n); }
    }
  }

  // ---------------------------------------------------------------------------
  // Changing one field's parent
  // ---------------------------------------------------------------------------

  lemma {:induction false} SameChain(m: Parents, m': Parents, k: Key, start: Key, n: nat)
    requires forall a :: a != k ==> (a in m <==> a in m') && (a in m ==> m'[a] == m[a])
    requires forall i: nat :: i < n ==> Ancestor(m, start, i) != Some(k)
    ensures Ancestor(m', start, n) == Ancestor(m, start, n)
  {
    if n > 0 {
      SameChain(m, m', k, start, n - 1);
    }
  }

  /** Hanging `k` under a field whose chain avoids `k` keeps every chain finite. */
  lemma NewParentKeeps(m: Parents, k: Key, p: Key)
    requires GoodForm(m) && p in m && !SelfOrDescendant(m, p, k)
    ensures GoodForm(m[k := Some(p)])
  {
    var m' := m[k := Some(p)];
    GoodChainsEnd(m, p);
    SameChain(m, m', k, p, |m|);
    assert Ancestor(m', k, 0) == Some(k);
    assert Ancestor(m', k, 1) == Some(p);
    AncestorPlus(m', k, 1, |m|);
    NewChainsEnd(m, m', k, |m| + 1);
    GoodIffChainsEnd(m');
  }

  lemma NoParentKeeps(m: Parents, k: Key)
    requires GoodForm(m)
    ensures GoodForm(m[k := None])
  {
    var m' := m[k := None];
    assert Ancestor(m', k, 0) == Some(k);
    assert Ancestor(m', k, 1) == None;
    NewChainsEnd(m, m', k, 1);
    GoodIffChainsEnd(m');
  }

  /** Every chain either never meets `k`, or joins the chain of `k`. */
  lemma NewChainsEnd(m: Parents, m': Parents, k: Key, steps: nat)
    requires GoodForm(m) && m'.Keys == m.Keys + {k} && Ancestor(m', k, steps) == None
    requires forall a :: a in m && a != k ==> m'[a] == m[a]
    ensures forall a :: a in m' ==> Ends(m', a)
  {
    forall a | a in m'
      ensures Ends(m', a)
    {
      if a in m && a != k {
        GoodChainsEnd(m, a);
        if i: nat :| i <= |m| && Ancestor(m', a, i) == Some(k) {
          AncestorPlus(m', a, i, steps);
        } else {
          SameChainBack(m, m', k, a, |m|);
        }
      }
    }
  }

  lemma {:induction false} SameChainBack(m: Parents, m': Parents, k: Key, start: Key, n: nat)
    requires forall a :: a != k ==> (a in m <==> a in m') && (a in m ==> m'[a] == m[a])
    requires forall i: nat :: i <= n ==> Ancestor(m', start, i) != Some(k)
    ensures Ancestor(m', start, n) == Ancestor(m, start, n)
  {
    if n > 0 {
      SameChainBack(m, m', k, start, n - 1);
    }
  }

  /** Removing a field nothing hangs under keeps every other chain. */
  lemma RemovalKeeps(m: Parents, k: Key)
    requires GoodForm(m) && forall a :: a in m ==> m[a] != Some(k)
    ensures GoodForm(m - {k})
  {
    var m' := m - {k};
    forall a | a in m'
      ensures Ends(m', a)
    {
      GoodChainsEnd(m, a);
      forall i: nat | i < |m|
        ensures Ancestor(m, a, i) != Some(k)
      {
        if i > 0 && Ancestor(m, a, i - 1).Some? {
          AncestorInForm(m, a, i - 1);
        }
      }
      SameChain(m, m', k, a, |m|);
    }
    GoodIffChainsEnd(m');
  }

  // ---------------------------------------------------------------------------
  // Operations on a form
  // ---------------------------------------------------------------------------

  /** The source only checks a truthy `conditionalOn`; the empty string skips the
      check but is stored all the same. */
  ghost function CheckIfGiven(form: Form, fieldKey: Key, conditionalOn: Option<Key>): Option<FormError> {
    if conditionalOn.Some? && conditionalOn.value != "" then Check(ParentsOf(form), fieldKey, conditionalOn.value) else None
  }

  ghost function Create(form: Form, key: Key, field: Field): Result<Form, FormError> {
    var refused := CheckIfGiven(form, key, field.conditionalOn);
    if refused.Some? then Failure(refused.value)
    else if key in form then Failure(KeyTaken)
    else Success(form[key := field])
  }

  /** `None` leaves a column as it is. */
  datatype Patch = Patch(fieldKey: Option<Key>, displayOrder: Option<int>, conditionalOn: Option<Option<Key>>)

  function Patched(field: Field, patch: Patch): Field {
    field.(displayOrder := if patch.displayOrder.Some? then patch.displayOrder.value else field.displayOrder,
           conditionalOn := if patch.conditionalOn.Some? then patch.conditionalOn.value else field.conditionalOn)
  }

  ghost function Update(form: Form, key: Key, patch: Patch): Result<Form, FormError> {
    if key !in form then Failure(NotFound)
    else
      var newKey := if patch.fieldKey.Some? then patch.fieldKey.value else key;
      var refused := CheckIfGiven(form, newKey, if patch.conditionalOn.Some? then patch.conditionalOn.value else None);
      if refused.Some? then Failure(refused.value)
      else if newKey != key && newKey in form then Failure(KeyTaken)
      else Success((form - {key})[newKey := Patched(form[key], patch)])
  }

  ghost predicate HasDependent(m: Parents, key: Key) {
    exists k :: k in m && m[k] == Some(key)
  }

  ghost function Delete(form: Form, key: Key): Result<Form, FormError> {
    if key !in form then Failure(NotFound)
    else if HasDependent(ParentsOf(form), key) then Failure(HasDependents)
    else Success(form - {key})
  }

  function Reordered(form: Form, order: seq<(Key, int)>): Form
    requires forall o :: o in order ==> o.0 in form
  {
    if order == [] then form
    else
      var (key, position) := order[|order| - 1];
      var before := Reordered(form, order[..|order| - 1]);
      if key in before then before[key := before[key].(displayOrder := position)] else before
  }

  function Seeded(form: Form, defaults: map<Key, Field>): Form {
    map k | k in form.Keys + defaults.Keys :: if k in form then form[k] else defaults[k].(conditionalOn := None)
  }

  ghost function Given<T>(given: Option<T>, otherwise: T): T {
    match given case Some(value) => value case None => otherwise
  }

  /** A form as the object the actions change in place. */
  class FormStore {
    var form: Form

    constructor ()
      ensures form == map[]
    {
      form := map[];
    }

    method CreateFormField(key: Key, field: Field) returns (error: Option<FormError>)
      modifies this
      ensures match Create(old(form), key, field)
              case Success(next) => error == None && form == next
              case Failure(e) => error == Some(e) && form == old(form)
      ensures error == None <==>
                key !in old(form)
                && match field.conditionalOn
                   case Some(parent) => parent == "" || Check(ParentsOf(old(form)), key, parent) == None
                   case None => true
      ensures error == None ==> form == old(form)[key := field]
    {
      if field.conditionalOn.Some? && field.conditionalOn.value != "" {
        error := AssertNoConditionalCycle(ParentsOf(form), key, field.conditionalOn.value);
        if error.Some? {
          return;
        }
      }
      if key in form {
        return Some(KeyTaken);
      }
      form := form[key := field];
      error := None;
    }

    method UpdateFormField(key: Key, patch: Patch) returns (error: Option<FormError>)
      modifies this
      ensures match Update(old(form), key, patch)
              case Success(next) => error == None && form == next
              case Failure(e) => error == Some(e) && form == old(form)
      // the field has the key it was given, and of its columns exactly those given are new
      ensures error == None ==>
                key in old(form)
                && var newKey := Given(patch.fieldKey, key);
                   newKey in form && form - {newKey} == old(form) - {key}
                   && form[newKey].caption == old(form)[key].caption && form[newKey].required == old(form)[key].required
                   && form[newKey].displayOrder == Given(patch.displayOrder, old(form)[key].displayOrder)
                   && form[newKey].conditionalOn == Given(patch.conditionalOn, old(form)[key].conditionalOn)
      ensures error == None <==>
                key in old(form) && (Given(patch.fieldKey, key) == key || Given(patch.fieldKey, key) !in old(form))
                && match Given(patch.conditionalOn, None)
                   case Some(parent) =>
                     parent == "" || Check(ParentsOf(old(form)), Given(patch.fieldKey, key), parent) == None
                   case None => true
    {
      if key !in form {
        return Some(NotFound);
      }
      var newKey := if patch.fieldKey.Some? then patch.fieldKey.value else key;
      if patch.conditionalOn.Some? && patch.conditionalOn.value.Some? && patch.conditionalOn.value.value != "" {
        error := AssertNoConditionalCycle(ParentsOf(form), newKey, patch.conditionalOn.value.value);
        if error.Some? {
          return;
        }
      }
      if newKey != key && newKey in form {
        return Some(KeyTaken);
      }
      form := (form - {key})[newKey := Patched(form[key], patch)];
      error := None;
    }

    method DeleteFormField(key: Key) returns (error: Option<FormError>)
      modifies this
      ensures match Delete(old(form), key)
              case Success(next) => error == None && form == next
              case Failure(e) => error == Some(e) && form == old(form)
      ensures error == None <==> key in old(form) && forall k :: k in old(form) ==> old(form)[k].conditionalOn != Some(key)
      ensures error == None ==> form == old(form) - {key}
    {
      if key !in form {
        return Some(NotFound);
      }
      var dependents := set k | k in form && form[k].conditionalOn == Some(key);
      if dependents != {} {
        var k :| k in dependents;
        assert k in ParentsOf(form) && ParentsOf(form)[k] == Some(key);
        return Some(HasDependents);
      }
      forall k | k in form ensures form[k].conditionalOn != Some(key) { assert k !in dependents; }
      assert !HasDependent(ParentsOf(form), key);
      form := form - {key};
      error := None;
    }

    method ReorderFormFields(order: seq<(Key, int)>) returns (error: Option<FormError>)
      modifies this
      ensures if exists o :: o in order && o.0 !in old(form) then error == Some(NotInForm) && form == old(form)
              else error == None && form == Reordered(old(form), order)
    {
      if exists o :: o in order && o.0 !in form {
        return Some(NotInForm);
      }
      ghost var start := form;
      for i := 0 to |order|
        invariant form.Keys == start.Keys
        invariant form == Reordered(start, order[..i])
      {
        assert order[..i + 1][..i] == order[..i] && order[i] in order;
        form := form[order[i].0 := form[order[i].0].(displayOrder := order[i].1)];
      }
      assert order[..|order|] == order;
      error := None;
    }

    /** The defaults that are missing are added; no field that is there changes. */
    method SeedDefaults(defaults: map<Key, Field>)
      modifies this
      ensures form == Seeded(old(form), defaults)
      ensures forall k :: k in old(form) ==> k in form && form[k] == old(form)[k]
      ensures forall k :: k in defaults && k !in old(form) ==> k in form && form[k] == defaults[k].(conditionalOn := None)
      ensures forall k :: k in form ==> k in old(form) || k in defaults
      ensures old(form) == Seeded(old(form), defaults) <==> defaults.Keys <= old(form).Keys
    {
      form := map k | k in form.Keys + defaults.Keys :: if k in form then form[k] else defaults[k].(conditionalOn := None);
    }
  }

  // ---------------------------------------------------------------------------
  // Which operations keep a form good
  // ---------------------------------------------------------------------------

  /** A created field keeps the form good, except when its parent is the empty
      string and no field has that key. */
  lemma CreateKeeps(form: Form, key: Key, field: Field)
    requires GoodForm(ParentsOf(form)) && Create(form, key, field).Success?
    ensures GoodForm(ParentsOf(Create(form, key, field).value))
       <==> (field.conditionalOn != Some("") || "" in form)
  {
    var m, m' := ParentsOf(form), ParentsOf(form[key := field]);
    assert m' == m[key := field.conditionalOn];
    match field.conditionalOn {
      case None => NoParentKeeps(m, key);
      case Some(p) =>
        if p in m {
          forall n: nat
            ensures Ancestor(m, p, n) != Some(key)
          {
            if Ancestor(m, p, n).Some? { AncestorInForm(m, p, n); }
          }
          NewParentKeeps(m, key, p);
        } else {
          assert p == "" && m'[key] == Some("");
          if key == "" { assert Ancestor(m', key, 0) == Some(key) && Ancestor(m', key, 1) == Some(key); }
        }
    }
  }

  /** So does an update that leaves the key alone, except when it points the field
      at the empty string where the skipped check would have refused it. */
  lemma UpdateKeeps(form: Form, key: Key, patch: Patch)
    requires GoodForm(ParentsOf(form)) && Update(form, key, patch).Success?
    requires patch.fieldKey == None || patch.fieldKey == Some(key)
    ensures GoodForm(ParentsOf(Update(form, key, patch).value))
       <==> (patch.conditionalOn != Some(Some("")) || Check(ParentsOf(form), key, "") == None)
  {
    var m, m' := ParentsOf(form), ParentsOf(Update(form, key, patch).value);
    if patch.conditionalOn == None {
      assert m' == m;
    } else {
      assert m' == m[key := patch.conditionalOn.value];
      match patch.conditionalOn.value {
        case None => NoParentKeeps(m, key);
        case Some(p) =>
          CheckIsExact(m, key, p);
          if Check(m, key, p) == None {
            NewParentKeeps(m, key, p);
          } else {
            RefusedParentBreaks(m, m', key, p);
          }
      }
    }
  }

  /** What the check refuses really is wrong. */
  lemma RefusedParentBreaks(m: Parents, m': Parents, k: Key, p: Key)
    requires GoodForm(m) && k in m && m' == m[k := Some(p)]
    requires p !in m || SelfOrDescendant(m, p, k)
    ensures !GoodForm(m')
  {
    if p in m {
      var n: nat := FirstArrival(m, p, k);
      SameChain(m, m', k, p, n);
      assert Ancestor(m', k, 0) == Some(k);
      assert Ancestor(m', k, 1) == Some(p);
      AncestorPlus(m', k, 1, n);
    }
  }

  lemma FirstArrival(m: Parents, start: Key, k: Key) returns (n: nat)
    requires SelfOrDescendant(m, start, k)
    ensures Ancestor(m, start, n) == Some(k) && forall i: nat :: i < n ==> Ancestor(m, start, i) != Some(k)
  {
    n :| Ancestor(m, start, n) == Some(k);
    while exists i: nat :: i < n && Ancestor(m, start, i) == Some(k)
      invariant Ancestor(m, start, n) == Some(k)
      decreases n
    {
      var i: nat :| i < n && Ancestor(m, start, i) == Some(k);
      n := i;
    }
  }

  lemma DeleteKeeps(form: Form, key: Key)
    requires GoodForm(ParentsOf(form)) && Delete(form, key).Success?
    ensures GoodForm(ParentsOf(Delete(form, key).value))
  {
    assert ParentsOf(form - {key}) == ParentsOf(form) - {key};
    RemovalKeeps(ParentsOf(form), key);
  }

  lemma {:induction false} ReorderKeeps(form: Form, order: seq<(Key, int)>)
    requires forall o :: o in order ==> o.0 in form
    ensures ParentsOf(Reordered(form, order)) == ParentsOf(form)
    decreases |order|
  {
    if order != [] {
      ReorderKeeps(form, order[..|order| - 1]);
    }
  }

  predicate IsLastEntry(order: seq<(Key, int)>, k: nat, key: Key)
    requires k < |order|
  {
    order[k].0 == key && forall j :: k < j < |order| ==> order[j].0 != key
  }

  /** After a reorder a field that was named stands where the last entry for it says,
      and one that was not stands where it stood; nothing else about any field changes. */
  lemma {:induction false} ReorderedPositions(form: Form, order: seq<(Key, int)>, key: Key)
    requires (forall o :: o in order ==> o.0 in form) && key in form
    ensures Reordered(form, order).Keys == form.Keys
    ensures var field := Reordered(form, order)[key];
            field == form[key].(displayOrder := field.displayOrder)
            && (forall k :: 0 <= k < |order| && IsLastEntry(order, k, key) ==> field.displayOrder == order[k].1)
            && ((forall k :: 0 <= k < |order| ==> order[k].0 != key) ==> field.displayOrder == form[key].displayOrder)
    decreases |order|
  {
    if order != [] {
      var before := order[..|order| - 1];
      ReorderedPositions(form, before, key);
      assert forall k :: 0 <= k < |before| ==> before[k] == order[k];
      assert order[|order| - 1] in order;
    }
  }

  lemma SeedingKeeps(form: Form, defaults: map<Key, Field>)
    requires GoodForm(ParentsOf(form))
    ensures GoodForm(ParentsOf(Seeded(form, defaults)))
  {
    var m, m' := ParentsOf(form), ParentsOf(Seeded(form, defaults));
    assert forall k :: k in m ==> k in m' && m'[k] == m[k];
    assert forall k :: k in m' && k !in m ==> m'[k] == None;
    forall k | k in m'
      ensures Ends(m', k)
    {
      if k in m {
        GoodChainsEnd(m, k);
        SeededChain(m, m', k, |m|);
      } else {
        assert Ancestor(m', k, 0) == Some(k);
        assert Ancestor(m', k, 1) == None;
      }
    }
    GoodIffChainsEnd(m');
  }

  lemma {:induction false} SeededChain(m: Parents, m': Parents, k: Key, n: nat)
    requires Closed(m) && k in m && forall a :: a in m ==> a in m' && m'[a] == m[a]
    ensures Ancestor(m', k, n) == Ancestor(m, k, n)
  {
    if n > 0 {
      SeededChain(m, m', k, n - 1);
      if Ancestor(m, k, n - 1).Some? { AncestorInForm(m, k, n - 1); }
    }
  }

  /** A rename keeps the form good exactly when nothing hangs under the old key (its
      dependents are not rewritten), the same call does not hang the field under its
      own old key (the check still sees it), and the skipped check of an empty-string
      parent would have found that field. */
  lemma RenameKeeps(form: Form, key: Key, patch: Patch)
    requires GoodForm(ParentsOf(form)) && patch.fieldKey.Some? && patch.fieldKey.value != key
    requires Update(form, key, patch).Success?
    ensures GoodForm(ParentsOf(Update(form, key, patch).value))
       <==> !HasDependent(ParentsOf(form), key) && patch.conditionalOn != Some(Some(key))
            && (patch.conditionalOn == Some(Some("")) ==> "" in form)
  {
    var m, newKey := ParentsOf(form), patch.fieldKey.value;
    var parent := if patch.conditionalOn.Some? then patch.conditionalOn.value else m[key];
    var m' := ParentsOf(Update(form, key, patch).value);
    assert m' == (m - {key})[newKey := parent];
    OwnKeyIsNoParent(m, key);
    if HasDependent(m, key) {
      DependentDangles(m, m', key);
    } else if parent.Some? && parent.value !in m - {key} {
      RenamedDangles(m, m', key, newKey, parent.value);
    } else {
      RemovalKeeps(m, key);
      RenamedKeeps(m - {key}, newKey, parent);
    }
  }

  lemma OwnKeyIsNoParent(m: Parents, key: Key)
    requires GoodForm(m) && key in m
    ensures m[key] != Some(key)
  {
    assert Ancestor(m, key, 0) == Some(key);
    assert Ancestor(m, key, 1) == m[key];
  }

  lemma DependentDangles(m: Parents, m': Parents, key: Key)
    requires GoodForm(m) && HasDependent(m, key) && key !in m' && forall k :: k in m && k != key ==> k in m' && m'[k] == m[k]
    ensures !GoodForm(m')
  {
    var d :| d in m && m[d] == Some(key);
    assert Ancestor(m, d, 0) == Some(d) && Ancestor(m, d, 1) == Some(key);
    assert m'[d] == Some(key);
  }

  /** A parent that is not among the other fields: the old key, or no field at all. */
  lemma RenamedDangles(m: Parents, m': Parents, key: Key, newKey: Key, p: Key)
    requires newKey != key && newKey !in m && m' == (m - {key})[newKey := Some(p)] && p !in m - {key}
    ensures !GoodForm(m')
  {
    assert m'[newKey] == Some(p);
    if p == newKey {
      assert Ancestor(m', p, 0) == Some(p) && Ancestor(m', p, 1) == Some(p);
    }
  }

  lemma RenamedKeeps(rest: Parents, newKey: Key, parent: Option<Key>)
    requires GoodForm(rest) && newKey !in rest && (parent.Some? ==> parent.value in rest)
    ensures GoodForm(rest[newKey := parent])
  {
    match parent {
      case None => NoParentKeeps(rest, newKey);
      case Some(p) =>
        forall n: nat
          ensures Ancestor(rest, p, n) != Some(newKey)
        {
          if Ancestor(rest, p, n).Some? { AncestorInForm(rest, p, n); }
        }
        NewParentKeeps(rest, newKey, p);
    }
  }

  // ---------------------------------------------------------------------------
  // Inputs that break a form
  // ---------------------------------------------------------------------------

  function Asking(conditionalOn: Option<Key>): Field {
    Field("?", false, 0, conditionalOn)
  }

  /** An empty-string parent is stored by a create and by an update, and dangles. */
  lemma EmptyParentDangles()
    ensures Create(map[], "a", Asking(Some(""))) == Success(map["a" := Asking(Some(""))])
    ensures Update(map["a" := Asking(None)], "a", Patch(None, None, Some(Some("")))) == Success(map["a" := Asking(Some(""))])
    ensures GoodForm(ParentsOf(map["a" := Asking(None)])) && !GoodForm(ParentsOf(map["a" := Asking(Some(""))]))
  {
    assert (map["a" := Asking(None)] - {"a"})["a" := Asking(Some(""))] == map["a" := Asking(Some(""))];
    var m' := ParentsOf(map["a" := Asking(Some(""))]);
    assert m'["a"] == Some("") && |"a"| != |""|;
  }

  /** A rename that leaves a dependent behind, and one that hangs the field under its
      own old key. */
  lemma RenamesDangle()
    ensures var form := map["a" := Asking(None), "b" := Asking(Some("a"))];
            var renamed := Update(form, "a", Patch(Some("c"), None, None));
            GoodForm(ParentsOf(form)) && renamed.Success? && !GoodForm(ParentsOf(renamed.value))
    ensures var form := map["a" := Asking(None)];
            var renamed := Update(form, "a", Patch(Some("c"), None, Some(Some("a"))));
            GoodForm(ParentsOf(form)) && renamed.Success? && !GoodForm(ParentsOf(renamed.value))
  {
    var lone := map["a" := Asking(None)];
    var pair := lone["b" := Asking(Some("a"))];
    assert Ancestor(ParentsOf(lone), "a", 0) == Some("a") && Ancestor(ParentsOf(lone), "a", 1) == None;
    assert Check(ParentsOf(lone), "b", "a") == None && Check(ParentsOf(lone), "c", "a") == None;
    CreateKeeps(lone, "b", Asking(Some("a")));
    assert pair == map["a" := Asking(None), "b" := Asking(Some("a"))];
    assert ParentsOf(pair)["b"] == Some("a");
    RenameKeeps(pair, "a", Patch(Some("c"), None, None));
    RenameKeeps(lone, "a", Patch(Some("c"), None, Some(Some("a"))));
  }
}
