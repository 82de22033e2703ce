/**
 * The rule registry (src/rules/ruleRegistry.ts): a map from rule id to rule that
 * keeps its keys in first-insertion order, the ten built-in registrations, and the
 * lazily created shared instance.
 */
module RuleRegistry {
  import opened Wrappers
  import opened Rules

  /**
   * A JavaScript `Map<string, R>` as a value: its keys in insertion order and the
   * value stored under each key.
   */
  datatype Table<R> = Table(order: seq<string>, entries: map<string, R>)

  /** Each key is listed once, and the listed keys are the map's keys. */
  ghost predicate WellFormed<R>(t: Table<R>) {
    && (forall i, j | 0 <= i < j < |t.order| :: t.order[i] != t.order[j])
    && (forall id :: id in t.entries <==> id in t.order)
  }

  function Empty<R>(): (r: Table<R>)
    ensures WellFormed(r)
  {
    Table([], map[])
  }

  /** `set(id, v)`: a new key goes to the end, an existing key keeps its place. */
  function Set<R>(t: Table<R>, id: string, v: R): (r: Table<R>)
    ensures id in r.entries && r.entries[id] == v
  {
    Table(if id in t.entries then t.order else t.order + [id], t.entries[id := v])
  }

  /** `get(id)`. */
  function Get<R>(t: Table<R>, id: string): Option<R> {
    if id in t.entries then Some(t.entries[id]) else None
  }

  /** `has(id)`. */
  predicate Has<R>(t: Table<R>, id: string) {
    id in t.entries
  }

  /** `Array.from(values())`: the stored values in key order. */
  function Values<R>(t: Table<R>): (r: seq<R>)
    requires WellFormed(t)
    ensures |r| == |t.order|
    ensures forall i | 0 <= i < |r| :: r[i] == t.entries[t.order[i]]
  {
    seq(|t.order|, i requires 0 <= i < |t.order| => t.entries[t.order[i]])
  }

  /** Every rule in the registry's map sits under its own id. */
  ghost predicate Keyed(t: Table<Rule>) {
    forall id | id in t.entries :: t.entries[id].Id() == id
  }

  /** The ids of a rule list, in order. */
  function Ids(rules: seq<Rule>): (r: seq<string>)
    ensures |r| == |rules| && forall i | 0 <= i < |r| :: r[i] == rules[i].Id()
  {
    seq(|rules|, i requires 0 <= i < |rules| => rules[i].Id())
  }

  /** The registrations of the private constructor, in order. */
  const BuiltinRules := [MaxLineLength, Indent, Semicolons, NoConsole, NoVar, NoAny,
                         NoEmptyFunctions, NamingConvention, FunctionEmptyLine, UENamingConvention]

  /** `registerRule(rule)` on a table: `set` under the rule's own id. */
  function Register(t: Table<Rule>, rule: Rule): Table<Rule> {
    Set(t, rule.Id(), rule)
  }

  /** A well-formed table whose rules sit under their own ids and whose values are `rules`. */
  ghost predicate Lists(t: Table<Rule>, rules: seq<Rule>) {
    WellFormed(t) && Keyed(t) && Values(t) == rules
  }

  /** `set` keeps the table well formed. */
  lemma SetValid<R>(t: Table<R>, id: string, v: R)
    requires WellFormed(t)
    ensures WellFormed(Set(t, id, v))
  {
    var r := Set(t, id, v);
    if id !in t.entries {
      forall i, j | 0 <= i < j < |r.order| ensures r.order[i] != r.order[j] {
        if j == |t.order| {
          assert r.order[i] == t.order[i] && t.order[i] in t.order;
        }
      }
    }
  }

  /** After `set(id, v)`, `id` is present and looks up exactly `v`. */
  lemma SetThenGet<R>(t: Table<R>, id: string, v: R)
    ensures Has(Set(t, id, v), id)
    ensures Get(Set(t, id, v), id) == Some(v)
  {
  }

  /** `set(id, v)` leaves every other key's entry as it was, present or absent. */
  lemma SetKeepsOthers<R>(t: Table<R>, id: string, v: R, other: string)
    requires other != id
    ensures Has(Set(t, id, v), other) == Has(t, other)
    ensures Get(Set(t, id, v), other) == Get(t, other)
  {
  }

  /** The values after setting a new key: the new value is appended. */
  lemma SetValuesNew<R>(t: Table<R>, id: string, v: R)
    requires WellFormed(t) && !Has(t, id)
    ensures WellFormed(Set(t, id, v))
    ensures Set(t, id, v).order == t.order + [id]
    ensures Values(Set(t, id, v)) == Values(t) + [v]
  {
    SetValid(t, id, v);
    var before, after := Values(t), Values(Set(t, id, v));
    forall i | 0 <= i < |after| ensures after[i] == (before + [v])[i] {
      if i < |before| {
        assert t.order[i] in t.order;
      }
    }
  }

  /**
   * The values after setting a key already at position `k`: the new value replaces
   * the old one in that position and the order stays.
   */
  lemma SetValuesExisting<R>(t: Table<R>, id: string, v: R, k: nat)
    requires WellFormed(t) && k < |t.order| && t.order[k] == id
    ensures WellFormed(Set(t, id, v))
    ensures Set(t, id, v).order == t.order
    ensures Values(Set(t, id, v)) == Values(t)[k := v]
  {
    SetValid(t, id, v);
    var before, after := Values(t), Values(Set(t, id, v));
    forall i | 0 <= i < |after| ensures after[i] == before[k := v][i] {
      if i != k {
        assert t.order[i] != t.order[k];
      }
    }
  }

  /** Registering a rule under its own id keeps every rule under its own id. */
  lemma RegisterKeyed(t: Table<Rule>, rule: Rule)
    requires Keyed(t)
    ensures Keyed(Register(t, rule))
  {
  }

  /** In a table of rules under their own ids, the key order is the ids of the values. */
  lemma KeysAreIds(t: Table<Rule>)
    requires WellFormed(t) && Keyed(t)
    ensures Ids(Values(t)) == t.order
    ensures forall id :: Has(t, id) <==> id in Ids(Values(t))
  {
    forall i | 0 <= i < |t.order| ensures Values(t)[i].Id() == t.order[i] {
      assert t.order[i] in t.order;
    }
  }

  /** A rule not yet listed has an id not yet registered, since ids determine rules. */
  lemma {:induction false} AbsentRuleAbsentId(t: Table<Rule>, rules: seq<Rule>, rule: Rule)
    requires Lists(t, rules) && rule !in rules
    ensures !Has(t, rule.Id())
  {
    KeysAreIds(t);
    if Has(t, rule.Id()) {
      var i :| 0 <= i < |t.order| && t.order[i] == rule.Id();
      IdDeterminesRule(rules[i], rule);
    }
  }

  /** Registering a rule not yet listed appends it, and keeps every rule under its own id. */
  lemma RegisterNew(t: Table<Rule>, rules: seq<Rule>, rule: Rule)
    requires Lists(t, rules) && rule !in rules
    ensures Lists(Register(t, rule), rules + [rule])
    ensures Register(t, rule).order == t.order + [rule.Id()]
  {
    AbsentRuleAbsentId(t, rules, rule);
    SetValuesNew(t, rule.Id(), rule);
  }

  /**
   * Registering a rule whose id is already listed replaces the listed rule in its
   * position.
   */
  lemma RegisterExisting(t: Table<Rule>, rules: seq<Rule>, rule: Rule, k: nat)
    requires Lists(t, rules) && k < |rules| && rules[k].Id() == rule.Id()
    ensures Lists(Register(t, rule), rules[k := rule])
    ensures Register(t, rule).order == t.order
  {
    KeysAreIds(t);
    SetValuesExisting(t, rule.Id(), rule, k);
  }

  /** The rules a table lists determine the table: its order and every entry. */
  lemma ListsUnique(a: Table<Rule>, b: Table<Rule>, rules: seq<Rule>)
    requires Lists(a, rules) && Lists(b, rules)
    ensures a == b
  {
    KeysAreIds(a);
    KeysAreIds(b);
    forall id | id in a.entries ensures id in b.entries && a.entries[id] == b.entries[id] {
      var i :| 0 <= i < |a.order| && a.order[i] == id;
    }
  }

  /** Registering the next rule of a list of distinct rules extends the listed prefix by it. */
  lemma RegisterNext(t: Table<Rule>, rules: seq<Rule>, k: nat)
    requires k < |rules| && Lists(t, rules[..k])
    requires forall i, j | 0 <= i < j < |rules| :: rules[i] != rules[j]
    ensures Lists(Register(t, rules[k]), rules[..k + 1])
  {
    assert rules[..k] + [rules[k]] == rules[..k + 1];
    RegisterNew(t, rules[..k], rules[k]);
  }

  /** Registering the last five of ten distinct rules after the first five lists all ten. */
  lemma RegisterLastFive(t: Table<Rule>, rules: seq<Rule>)
    requires |rules| == 10 && Lists(t, rules[..5])
    requires forall i, j | 0 <= i < j < |rules| :: rules[i] != rules[j]
    ensures Lists(Register(Register(Register(Register(Register(t, rules[5]), rules[6]), rules[7]), rules[8]), rules[9]), rules)
  {
    RegisterNext(t, rules, 5);
    var t6 := Register(t, rules[5]);
    RegisterNext(t6, rules, 6);
    var t7 := Register(t6, rules[6]);
    RegisterNext(t7, rules, 7);
    var t8 := Register(t7, rules[7]);
    RegisterNext(t8, rules, 8);
    var t9 := Register(t8, rules[8]);
    RegisterLast(t9, rules);
  }

  /** Registering the last of a list of distinct rules after the others lists them all. */
  lemma RegisterLast(t: Table<Rule>, rules: seq<Rule>)
    requires 0 < |rules| && Lists(t, rules[..|rules| - 1])
    requires forall i, j | 0 <= i < j < |rules| :: rules[i] != rules[j]
    ensures Lists(Register(t, rules[|rules| - 1]), rules)
  {
    RegisterNext(t, rules, |rules| - 1);
    assert rules[..|rules|] == rules;
  }

  /** The position of a rule in `BuiltinRules`, or -1. */
  function BuiltinPosition(rule: Rule): int {
    match rule
    case MaxLineLength => 0
    case Indent => 1
    case Semicolons => 2
    case NoConsole => 3
    case NoVar => 4
    case NoAny => 5
    case NoEmptyFunctions => 6
    case NamingConvention => 7
    case FunctionEmptyLine => 8
    case UENamingConvention => 9
    case _ => -1
  }

  /** The built-in rules are pairwise distinct. */
  lemma BuiltinDistinct()
    ensures forall i, j | 0 <= i < j < |BuiltinRules| :: BuiltinRules[i] != BuiltinRules[j]
  {
    assert forall i | 0 <= i < |BuiltinRules| :: BuiltinPosition(BuiltinRules[i]) == i;
  }

  /** The first five built-in registrations list the first five built-in rules. */
  lemma BuiltinFirstHalf(t: Table<Rule>, rules: seq<Rule>)
    requires t == Empty() && rules == BuiltinRules
    ensures Lists(Register(Register(Register(Register(Register(t, rules[0]), rules[1]), rules[2]), rules[3]), rules[4]), rules[..5])
  {
    BuiltinDistinct();
    assert Lists(t, rules[..0]) by { EmptyLists(t, rules); }
    RegisterFirstFive(t, rules);
  }

  /** The empty table lists the empty prefix of any list. */
  lemma EmptyLists(t: Table<Rule>, rules: seq<Rule>)
    requires t == Empty()
    ensures Lists(t, rules[..0])
  {
    assert rules[..0] == [];
  }

  /** Registering the first five of a list of distinct rules into a table listing none lists them. */
  lemma RegisterFirstFive(t: Table<Rule>, rules: seq<Rule>)
    requires 5 <= |rules| && Lists(t, rules[..0])
    requires forall i, j | 0 <= i < j < |rules| :: rules[i] != rules[j]
    ensures Lists(Register(Register(Register(Register(Register(t, rules[0]), rules[1]), rules[2]), rules[3]), rules[4]), rules[..5])
  {
    RegisterNext(t, rules, 0);
    var t1 := Register(t, rules[0]);
    RegisterNext(t1, rules, 1);
    var t2 := Register(t1, rules[1]);
    RegisterNext(t2, rules, 2);
    var t3 := Register(t2, rules[2]);
    RegisterNext(t3, rules, 3);
    var t4 := Register(t3, rules[3]);
    RegisterNext(t4, rules, 4);
  }

  /** The last five built-in registrations complete the list of built-in rules. */
  lemma BuiltinSecondHalf(t: Table<Rule>, rules: seq<Rule>)
    requires rules == BuiltinRules && Lists(t, rules[..5])
    ensures Lists(Register(Register(Register(Register(Register(t, rules[5]), rules[6]), rules[7]), rules[8]), rules[9]), rules)
  {
    BuiltinDistinct();
    RegisterLastFive(t, rules);
  }

  /** Registering the ten built-in rules one after the other into an empty table lists them. */
  lemma BuiltinLists(t: Table<Rule>, rules: seq<Rule>)
    requires t == Empty() && rules == BuiltinRules
    ensures Lists(Register(Register(Register(Register(Register(Register(Register(Register(Register(Register(t, rules[0]), rules[1]), rules[2]), rules[3]), rules[4]), rules[5]), rules[6]), rules[7]), rules[8]), rules[9]), rules)
  {
    BuiltinFirstHalf(t, rules);
    BuiltinSecondHalf(Register(Register(Register(Register(Register(t, rules[0]), rules[1]), rules[2]), rules[3]), rules[4]), rules);
  }

  /** The ten built-in ids, in registration order. */
  lemma BuiltinIds()
    ensures Ids(BuiltinRules) == ["maxLineLength", "indent", "semicolons", "noConsole", "noVar", "noAny",
                                  "noEmptyFunctions", "namingConvention", "functionEmptyLine",
                                  "ueNamingConvention"]
  {
  }

  /**
   * A registry listing the built-in rules has exactly the built-in ids:
   * `quotes`, `noTrailingWhitespace`, `trailingComma` and `arrayCopy` are absent.
   */
  lemma BuiltinLacks(t: Table<Rule>, rule: Rule)
    requires Lists(t, BuiltinRules)
    requires rule in {Quotes, NoTrailingWhitespace, TrailingComma, ArrayCopy}
    ensures !Has(t, rule.Id()) && Get(t, rule.Id()) == None
  {
    AbsentRuleAbsentId(t, BuiltinRules, rule);
  }

  /** The registry object; its fields are the map's key order and entries. */
  class Registry {
    var order: seq<string>
    var rules: map<string, Rule>

    ghost predicate Valid()
      reads this
    {
      WellFormed(Contents()) && Keyed(Contents())
    }

    function Contents(): Table<Rule>
      reads this
    {
      Table(order, rules)
    }

    /** The private constructor: the ten built-in rules, registered in order. */
    constructor()
      ensures Valid() && Lists(Contents(), BuiltinRules)
    {
      order, rules := [], map[];
      new;
      ghost var start := Contents();
      RegisterRule(MaxLineLength);
      RegisterRule(Indent);
      RegisterRule(Semicolons);
      RegisterRule(NoConsole);
      RegisterRule(NoVar);
      RegisterRule(NoAny);
      RegisterRule(NoEmptyFunctions);
      RegisterRule(NamingConvention);
      RegisterRule(FunctionEmptyLine);
      RegisterRule(UENamingConvention);
      BuiltinLists(start, BuiltinRules);
    }

    /** `registerRule(rule)`: the map's `set` under the rule's own id. */
    method RegisterRule(rule: Rule)
      requires Valid()
      modifies this
      ensures Valid()
      ensures Contents() == Register(old(Contents()), rule)
    {
      SetValid(Contents(), rule.Id(), rule);
      RegisterKeyed(Contents(), rule);
      var id := rule.Id();
      if id !in rules {
        order := order + [id];
      }
      rules := rules[id := rule];
    }

    /** `getRule(id)`: the rule registered under `id`, whose own id is `id`, or nothing. */
    method GetRule(id: string) returns (r: Option<Rule>)
      requires Valid()
      ensures r.Some? <==> id in order
      ensures r.Some? ==> r.value.Id() == id && r.value == rules[id]
    {
      r := if id in rules then Some(rules[id]) else None;
    }

    /** `getAllRules()`: each registered rule once, under its own id, in first-registration order. */
    method GetAllRules() returns (r: seq<Rule>)
      requires Valid()
      ensures r == Values(Contents())
      ensures Ids(r) == order
      ensures forall i, j | 0 <= i < j < |r| :: r[i].Id() != r[j].Id()
    {
      r := Values(Contents());
      assert forall i | 0 <= i < |r| :: r[i].Id() == order[i] by {
        forall i | 0 <= i < |r| ensures r[i].Id() == order[i] {
          assert order[i] in order;
        }
      }
    }

    /** `hasRule(id)`. */
    method HasRule(id: string) returns (b: bool)
      requires Valid()
      ensures b <==> id in order
    {
      b := id in rules;
    }
  }

  /** The class's static `instance` slot, kept in an object of its own. */
  class Instance {
    var instance: Registry?

    ghost predicate Valid()
      reads this, instance
    {
      instance != null ==> instance.Valid()
    }

    constructor()
      ensures Valid() && instance == null
    {
      instance := null;
    }

    /**
     * `getInstance()`: the first call creates the built-in registry; every call
     * returns the one stored.
     */
    method GetInstance() returns (r: Registry)
      requires Valid()
      modifies this
      ensures Valid() && instance == r
      ensures old(instance) != null ==> r == old(instance)
      ensures old(instance) == null ==> fresh(r) && Lists(r.Contents(), BuiltinRules)
    {
      if instance == null {
        instance := new Registry();
      }
      r := instance;
    }
  }

  /** Two calls of `getInstance` give the same object. */
  method GetInstanceTwice(slot: Instance) returns (a: Registry, b: Registry)
    requires slot.Valid()
    modifies slot
    ensures a == b && slot.instance == a
  {
    a := slot.GetInstance();
    b := slot.GetInstance();
  }
}
