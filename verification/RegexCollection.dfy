/** A cached collection of rewrite rules, matched by descending priority.

    The regex engine is a function: `search(rule, value)` is the formatted
    replacement when the rule's regex is found in the value. The library sort
    promises a sorted permutation and nothing about ties, so the order it
    returned enters the constructor as a parameter that meets that promise.
 */
module RegexCollection {
  import opened Wrappers

  datatype Rule = Rule(regex: string, repr: string, priority: int)

  /** A member of the JSON map; `value` is None when it is not a string. */
  datatype Entry = Entry(key: string, value: Option<string>)

  type Search = (Rule, string) -> Option<string>

  // --- building ---------------------------------------------------------------------------------------

  /** The rules of the string members whose regex compiles, in member order. */
  function Built(entries: seq<Entry>, compiles: string -> bool, priority: string -> int): seq<Rule> {
    if entries == [] then []
    else
      var n := |entries| - 1;
      var e := entries[n];
      Built(entries[..n], compiles, priority)
      + if e.value.Some? && compiles(e.key) then [Rule(e.key, e.value.value, priority(e.key))] else []
  }

  predicate Sorted(rules: seq<Rule>) {
    forall i, j :: 0 <= i < j < |rules| ==> rules[i].priority >= rules[j].priority
  }

  /** The rules are those of the members whose value is a string and whose key is a regex, with the value as what to
      write and the key's priority. */
  lemma {:induction false} RulesOfEntries(
    entries: seq<Entry>, compiles: string -> bool, priority: string -> int, rule: Rule)
    ensures rule in Built(entries, compiles, priority) <==>
      exists k :: 0 <= k < |entries| && entries[k].value == Some(rule.repr) && entries[k].key == rule.regex
        && compiles(rule.regex) && rule.priority == priority(rule.regex)
    decreases |entries|
  {
    if entries == [] {
    } else {
      var n := |entries| - 1;
      RulesOfEntries(entries[..n], compiles, priority, rule);
      assert forall k :: 0 <= k < n ==> entries[..n][k] == entries[k];
    }
  }

  // --- looking up ---------------------------------------------------------------------------------------

  /** The formatted result of the first matching rule. */
  function FirstMatch(rules: seq<Rule>, search: Search, value: string): Option<string> {
    if rules == [] then None
    else if search(rules[0], value).Some? then search(rules[0], value)
    else FirstMatch(rules[1..], search, value)
  }

  /** The uncached answer. */
  function Answer(rules: seq<Rule>, search: Search, default: string, value: string): string {
    match FirstMatch(rules, search, value)
    case Some(r) => r
    case None => default
  }

  /** `r` is what a rule of the greatest priority among the matching ones gives. */
  ghost predicate OfGreatestPriority(rules: multiset<Rule>, search: Search, value: string, r: string) {
    exists best :: best in rules && search(best, value) == Some(r)
      && forall other :: other in rules && search(other, value).Some? ==> other.priority <= best.priority
  }

  lemma {:induction false} FirstIsGreatest(rules: seq<Rule>, search: Search, value: string)
    requires Sorted(rules)
    ensures match FirstMatch(rules, search, value)
      case Some(r) => OfGreatestPriority(multiset(rules), search, value, r)
      case None => forall rule :: rule in rules ==> search(rule, value).None?
    decreases |rules|
  {
    if rules == [] {
    } else {
      assert rules == [rules[0]] + rules[1..];
      if search(rules[0], value).Some? {
        forall other | other in multiset(rules) ensures other.priority <= rules[0].priority {
          var i :| 0 <= i < |rules| && rules[i] == other;
        }
        assert rules[0] in multiset(rules);
      } else {
        FirstIsGreatest(rules[1..], search, value);
        if FirstMatch(rules, search, value).Some? {
          var r := FirstMatch(rules, search, value).value;
          var best :| best in multiset(rules[1..]) && search(best, value) == Some(r)
            && forall other :: other in multiset(rules[1..]) && search(other, value).Some? ==>
                 other.priority <= best.priority;
          assert best in multiset(rules);
        }
      }
    }
  }

  /** Of the rules that match, the first in the order of the sort counts. */
  lemma {:induction false} FirstMatchIsFirst(rules: seq<Rule>, search: Search, value: string, k: nat)
    requires k < |rules| && search(rules[k], value).Some?
    requires forall j :: 0 <= j < k ==> search(rules[j], value).None?
    ensures FirstMatch(rules, search, value) == search(rules[k], value)
    decreases |rules|
  {
    if k == 0 {
    } else {
      assert forall j :: 0 <= j < |rules[1..]| ==> rules[1..][j] == rules[j + 1];
      FirstMatchIsFirst(rules[1..], search, value, k - 1);
    }
  }

  /** Sorting and taking the first match refines the maximum over the rules as configured: the answer is
      that of a matching rule of greatest priority, or the default when none matches. */
  lemma AnswerIsGreatest(rules: seq<Rule>, built: seq<Rule>, search: Search, default: string, value: string)
    requires Sorted(rules) && multiset(rules) == multiset(built)
    ensures var r := Answer(rules, search, default, value);
      if exists rule :: rule in built && search(rule, value).Some? then
        OfGreatestPriority(multiset(built), search, value, r)
      else r == default
  {
    FirstIsGreatest(rules, search, value);
    assert forall rule :: rule in rules <==> rule in multiset(rules);
    assert forall rule :: rule in built <==> rule in multiset(built);
  }

  // --- the collection ---------------------------------------------------------------------------------------

  class RegexCollection {
    const search: Search
    const defaultRepr: string
    const rules: seq<Rule>
    var cache: map<string, string>

    /** What one-argument lookups keep: everything cached is the uncached answer. */
    ghost predicate Valid()
      reads this
    {
      forall v :: v in cache ==> cache[v] == Answer(rules, search, defaultRepr, v)
    }

    /** `entries` is None when the JSON value is not an object; `sorted` is what the library sort returns. */
    constructor (entries: Option<seq<Entry>>, defaultRepr: string, compiles: string -> bool,
                 priority: string -> int, search: Search, sorted: seq<Rule>)
      requires Sorted(sorted)
      requires multiset(sorted) == multiset(if entries.Some? then Built(entries.value, compiles, priority) else [])
      ensures Valid() && cache == map[]
      ensures rules == sorted && this.search == search && this.defaultRepr == defaultRepr
    {
      this.defaultRepr := defaultRepr;
      this.search := search;
      this.cache := map[];
      var built: seq<Rule> := [];
      if entries.Some? {
        var members := entries.value;
        for i := 0 to |members|
          invariant built == Built(members[..i], compiles, priority)
        {
          assert members[..i + 1][..i] == members[..i];
          var e := members[i];
          if e.value.Some? && compiles(e.key) {
            built := built + [Rule(e.key, e.value.value, priority(e.key))];
          }
        }
        assert members[..|members|] == members;
      }
      assert multiset(sorted) == multiset(built);
      this.rules := sorted;
    }

    /** Leaves the flag alone and gives the value back when no rule matches. */
    method FindMatch(value: string, matchedAny0: bool) returns (r: string, matchedAny: bool)
      ensures var first := FirstMatch(rules, search, value);
        && r == (if first.Some? then first.value else value)
        && matchedAny == (matchedAny0 || first.Some?)
    {
      assert rules[0..] == rules;
      for i := 0 to |rules|
        invariant FirstMatch(rules[i..], search, value) == FirstMatch(rules, search, value)
      {
        assert rules[i..][0] == rules[i] && rules[i..][1..] == rules[i + 1..];
        var found := search(rules[i], value);
        if found.Some? {
          return found.value, true;
        }
      }
      return value, matchedAny0;
    }

    /** With the flag already up and no rule matching, the value itself is cached instead of the default:
        that, and nothing else, spoils the cache. */
    method GetFlagged(value: string, matchedAny0: bool) returns (r: string, matchedAny: bool)
      requires Valid()
      modifies this`cache
      ensures value in cache && r == cache[value]
      ensures cache == if value in old(cache) then old(cache) else old(cache)[value := r]
      ensures Valid() <==> value in old(cache) || !matchedAny0 || value == defaultRepr
                           || FirstMatch(rules, search, value).Some?
      ensures matchedAny == (matchedAny0 || (value !in old(cache) && FirstMatch(rules, search, value).Some?))
    {
      matchedAny := matchedAny0;
      if value in cache {
        return cache[value], matchedAny;
      }
      r, matchedAny := FindMatch(value, matchedAny);
      if !matchedAny {
        r := defaultRepr;
      }
      ghost var before := cache;
      cache := cache[value := r];
      assert forall v :: v in before ==> v in cache && v != value && cache[v] == before[v];
    }

    /** A one-argument lookup answers as if there were no cache. */
    method Get(value: string) returns (r: string)
      requires Valid()
      modifies this`cache
      ensures Valid()
      ensures r == Answer(rules, search, defaultRepr, value)
      ensures (r, cache) == Lookup(rules, search, defaultRepr, old(cache), value)
    {
      var matchedAny;
      r, matchedAny := GetFlagged(value, false);
    }
  }

  // --- sequences of lookups -----------------------------------------------------------------------------------

  /** One lookup: its answer and the cache after it. */
  function Lookup(rules: seq<Rule>, search: Search, default: string, cache: map<string, string>, value: string)
    : (string, map<string, string>)
  {
    if value in cache then (cache[value], cache)
    else
      var r := Answer(rules, search, default, value);
      (r, cache[value := r])
  }

  function Lookups(rules: seq<Rule>, search: Search, default: string, cache: map<string, string>, values: seq<string>)
    : seq<string>
    decreases |values|
  {
    if values == [] then []
    else
      var (r, next) := Lookup(rules, search, default, cache, values[0]);
      [r] + Lookups(rules, search, default, next, values[1..])
  }

  /** However often and in whatever order values are looked up, each answer is the uncached one. */
  lemma {:induction false} CacheIsTransparent(rules: seq<Rule>, search: Search, default: string,
                                               cache: map<string, string>, values: seq<string>, i: nat)
    requires i < |values| && forall v :: v in cache ==> cache[v] == Answer(rules, search, default, v)
    ensures |Lookups(rules, search, default, cache, values)| == |values|
    ensures Lookups(rules, search, default, cache, values)[i] == Answer(rules, search, default, values[i])
    decreases |values|
  {
    var (r, next) := Lookup(rules, search, default, cache, values[0]);
    if |values| > 1 {
      CacheIsTransparent(rules, search, default, next, values[1..], if i > 0 then i - 1 else 0);
    } else {
      assert Lookups(rules, search, default, next, values[1..]) == [];
    }
  }
}
