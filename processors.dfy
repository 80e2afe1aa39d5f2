/** Processors as they are registered with the engine (the `ASTProcessor`
    type of src/index.ts), and the selection `parseScript` makes from the
    registry: sort by priority, keep those whose `find` patterns hold, drop
    the manual ones. */
module Processors {
  import opened Wrappers
  import Text

  /** The syntax tree is opaque: the wrapped text it was parsed from and the
      changes processors have made to it, in order. */
  datatype Tree = Tree(source: string, edits: seq<string>)

  /** `parseFixed("(\n" + code + "\n)")`; parse errors are not modelled. */
  function Parse(code: string): (t: Tree)
    ensures t.edits == []
  {
    Tree("(\n" + code + "\n)", [])
  }

  /** One entry of `find`: a literal substring or a regular expression,
      the latter given as the predicate its `test` computes. */
  datatype Pattern = Literal(text: string) | Regex(test: string -> bool)

  /** `find` is absent, a single pattern, or an array of patterns. */
  datatype Find = NoFind | One(pattern: Pattern) | Many(patterns: seq<Pattern>)

  /** What a processor's `process` callback does with the state it is given. */
  datatype Action =
    | MarkDirty                          // state.markDirty()
    | Edit(change: string)               // a mutation of state.ast
    | Trigger(target: string, tag: string) // state.trigger(target, tag)

  /** A scripted run of `process`: its actions in order, then its return value. */
  datatype Script = Script(actions: seq<Action>, changed: bool)

  class Processor {
    const name: string
    const find: Find
    const priority: Option<int>
    const manual: bool
    /** The callback's behaviour, as a function of the module id and the
        tree it is handed. */
    const process: (string, Tree) -> Script

    constructor (name: string, find: Find, priority: Option<int>, manual: bool, process: (string, Tree) -> Script)
      ensures this.name == name && this.find == find && this.priority == priority
      ensures this.manual == manual && this.process == process
    {
      this.name := name;
      this.find := find;
      this.priority := priority;
      this.manual := manual;
      this.process := process;
    }
  }

  /** `priority ?? 0` */
  function PriorityOf(p: Processor): (k: int)
  {
    match p.priority
    case Some(n) => n
    case None => 0
  }

  /** One `find` entry against the raw module source. */
  predicate Holds(pattern: Pattern, code: string)
  {
    match pattern
    case Literal(s) => Text.IndexOf(code, s) != -1
    case Regex(test) => test(code)
  }

  function Patterns(find: Find): (ps: seq<Pattern>)
  {
    match find
    case NoFind => []
    case One(pattern) => [pattern]
    case Many(patterns) => patterns
  }

  /** The first filter of `parseScript`: no `find`, or every entry holds. */
  predicate FindsHold(p: Processor, code: string)
  {
    var patterns := Patterns(p.find);
    p.find.NoFind? || forall i | 0 <= i < |patterns| :: Holds(patterns[i], code)
  }

  /** A processor `parseScript` selects on its own for this source. */
  predicate Eligible(p: Processor, code: string)
  {
    FindsHold(p, code) && !p.manual
  }

  lemma EligibleMeaning(p: Processor, code: string)
    ensures var patterns := Patterns(p.find);
      Eligible(p, code) <==>
        !p.manual &&
        forall i | 0 <= i < |patterns| ::
          match patterns[i]
          case Literal(s) => Text.IsSubstring(s, code)
          case Regex(test) => test(code)
  {
  }

  /** Elements of processor list `s`, in order, whose priority is `k`. */
  function OfPriority(s: seq<Processor>, k: int): (r: seq<Processor>)
    ensures forall p <- r :: p in s && PriorityOf(p) == k
  {
    if s == [] then []
    else (if PriorityOf(s[0]) == k then [s[0]] else []) + OfPriority(s[1..], k)
  }

  /** `a` is `b` with some elements dropped, order kept. */
  predicate Subsequence(a: seq<Processor>, b: seq<Processor>)
  {
    if a == [] then true
    else if b == [] then false
    else if a[0] == b[0] then Subsequence(a[1..], b[1..])
    else Subsequence(a, b[1..])
  }

  /** `OfPriority` keeps every processor of priority `k` and nothing else,
      in the order of the list. */
  lemma {:induction false} OfPriorityMeaning(s: seq<Processor>, k: int)
    ensures Subsequence(OfPriority(s, k), s)
    ensures forall p <- s :: PriorityOf(p) == k <==> p in OfPriority(s, k)
  {
    if s != [] {
      OfPriorityMeaning(s[1..], k);
      var t := OfPriority(s[1..], k);
      assert s == [s[0]] + s[1..];
      if PriorityOf(s[0]) == k {
        assert OfPriority(s, k) == [s[0]] + t;
        assert ([s[0]] + t)[1..] == t;
      } else {
        assert OfPriority(s, k) == t;
        assert t == [] || t[0] != s[0];
      }
    }
  }

  ghost predicate SortedByPriority(s: seq<Processor>)
  {
    forall i, j :: 0 <= i < j < |s| ==> PriorityOf(s[i]) <= PriorityOf(s[j])
  }

  /** Places `p` before the first element whose priority is not smaller. */
  function Insert(p: Processor, s: seq<Processor>): (r: seq<Processor>)
    ensures multiset(r) == multiset(s) + multiset{p}
  {
    if s == [] || PriorityOf(p) <= PriorityOf(s[0]) then [p] + s
    else
      assert s == [s[0]] + s[1..];
      [s[0]] + Insert(p, s[1..])
  }

  /** `[...processors].sort((a, b) => (a.priority ?? 0) - (b.priority ?? 0))`,
      a stable sort. */
  function SortByPriority(s: seq<Processor>): (r: seq<Processor>)
    ensures multiset(r) == multiset(s)
  {
    if s == [] then []
    else
      assert s == [s[0]] + s[1..];
      Insert(s[0], SortByPriority(s[1..]))
  }

  lemma {:induction false} InsertSorted(p: Processor, s: seq<Processor>)
    requires SortedByPriority(s)
    ensures SortedByPriority(Insert(p, s))
  {
    if s != [] && PriorityOf(p) > PriorityOf(s[0]) {
      InsertSorted(p, s[1..]);
      var t := Insert(p, s[1..]);
      assert multiset(t) == multiset(s[1..]) + multiset{p};
      forall q | q in t ensures PriorityOf(s[0]) <= PriorityOf(q) {
        assert q in multiset(t);
        if q != p {
          assert q in multiset(s[1..]);
        }
      }
    }
  }

  lemma {:induction false} InsertOfPriority(p: Processor, s: seq<Processor>, k: int)
    ensures OfPriority(Insert(p, s), k) == (if PriorityOf(p) == k then [p] else []) + OfPriority(s, k)
  {
    if s == [] || PriorityOf(p) <= PriorityOf(s[0]) {
      assert Insert(p, s) == [p] + s;
      OfPriorityCons(p, s, k);
    } else {
      InsertOfPriority(p, s[1..], k);
      InsertPastOfPriority(p, s, k);
    }
  }

  /** The step of `InsertOfPriority` where `p` goes past the head of `s`. */
  lemma InsertPastOfPriority(p: Processor, s: seq<Processor>, k: int)
    requires s != [] && PriorityOf(p) > PriorityOf(s[0])
    requires OfPriority(Insert(p, s[1..]), k) == (if PriorityOf(p) == k then [p] else []) + OfPriority(s[1..], k)
    ensures OfPriority(Insert(p, s), k) == (if PriorityOf(p) == k then [p] else []) + OfPriority(s, k)
  {
    InsertPastHead(p, s, k);
    SwapEmpty(if PriorityOf(s[0]) == k then [s[0]] else [], if PriorityOf(p) == k then [p] else [], OfPriority(s[1..], k));
  }

  lemma InsertPastHead(p: Processor, s: seq<Processor>, k: int)
    requires s != [] && PriorityOf(p) > PriorityOf(s[0])
    ensures OfPriority(Insert(p, s), k) == (if PriorityOf(s[0]) == k then [s[0]] else []) + OfPriority(Insert(p, s[1..]), k)
  {
    assert Insert(p, s) == [s[0]] + Insert(p, s[1..]);
    OfPriorityCons(s[0], Insert(p, s[1..]), k);
  }

  lemma SwapEmpty(a: seq<Processor>, b: seq<Processor>, c: seq<Processor>)
    requires a == [] || b == []
    ensures a + (b + c) == b + (a + c)
  {
    if a == [] {
      assert a + (b + c) == b + c;
      assert a + c == c;
    } else {
      assert b + c == c;
      assert b + (a + c) == a + c;
    }
  }

  /** The sort orders by ascending priority. */
  lemma {:induction false} SortIsSorted(s: seq<Processor>)
    ensures SortedByPriority(SortByPriority(s))
  {
    if s != [] {
      SortIsSorted(s[1..]);
      InsertSorted(s[0], SortByPriority(s[1..]));
    }
  }

  /** The sort is stable: processors of equal priority keep registration order. */
  lemma {:induction false} SortIsStable(s: seq<Processor>, k: int)
    ensures OfPriority(SortByPriority(s), k) == OfPriority(s, k)
  {
    if s != [] {
      SortIsStable(s[1..], k);
      InsertOfPriority(s[0], SortByPriority(s[1..]), k);
    }
  }

  /** `.filter(...find...)` */
  function WithFindsHolding(s: seq<Processor>, code: string): (r: seq<Processor>)
    ensures forall p <- r :: p in s && FindsHold(p, code)
    ensures forall p <- s :: FindsHold(p, code) ==> p in r
  {
    if s == [] then []
    else (if FindsHold(s[0], code) then [s[0]] else []) + WithFindsHolding(s[1..], code)
  }

  /** `.filter((x) => x.manual !== true)` */
  function NotManual(s: seq<Processor>): (r: seq<Processor>)
    ensures forall p <- r :: p in s && !p.manual
    ensures forall p <- s :: !p.manual ==> p in r
  {
    if s == [] then []
    else (if !s[0].manual then [s[0]] else []) + NotManual(s[1..])
  }

  /** The list `parseScript` hands to the run loop. */
  function Available(registry: seq<Processor>, code: string): (r: seq<Processor>)
  {
    NotManual(WithFindsHolding(SortByPriority(registry), code))
  }

  /** The registry's eligible processors in registration order. */
  function EligibleOnly(s: seq<Processor>, code: string): (r: seq<Processor>)
  {
    if s == [] then []
    else (if Eligible(s[0], code) then [s[0]] else []) + EligibleOnly(s[1..], code)
  }

  lemma SortedCons(p: Processor, s: seq<Processor>)
    requires SortedByPriority(s)
    requires forall q <- s :: PriorityOf(p) <= PriorityOf(q)
    ensures SortedByPriority([p] + s)
  {
    forall i, j | 0 <= i < j < |[p] + s| ensures PriorityOf(([p] + s)[i]) <= PriorityOf(([p] + s)[j]) {
      assert ([p] + s)[j] == s[j - 1];
      if i > 0 {
        assert ([p] + s)[i] == s[i - 1];
      }
    }
  }

  lemma SortedTail(s: seq<Processor>)
    requires SortedByPriority(s) && s != []
    ensures SortedByPriority(s[1..])
    ensures forall q <- s[1..] :: PriorityOf(s[0]) <= PriorityOf(q)
  {
    forall q <- s[1..] ensures PriorityOf(s[0]) <= PriorityOf(q) {
      var m :| 0 <= m < |s[1..]| && s[1..][m] == q;
      assert s[m + 1] == q;
    }
  }

  lemma {:induction false} FindFilterSorted(s: seq<Processor>, code: string)
    requires SortedByPriority(s)
    ensures SortedByPriority(WithFindsHolding(s, code))
  {
    if s != [] {
      SortedTail(s);
      FindFilterSorted(s[1..], code);
      if FindsHold(s[0], code) {
        SortedCons(s[0], WithFindsHolding(s[1..], code));
      }
    }
  }

  lemma {:induction false} ManualFilterSorted(s: seq<Processor>)
    requires SortedByPriority(s)
    ensures SortedByPriority(NotManual(s))
  {
    if s != [] {
      SortedTail(s);
      ManualFilterSorted(s[1..]);
      if !s[0].manual {
        SortedCons(s[0], NotManual(s[1..]));
      }
    }
  }

  lemma NotManualCons(p: Processor, t: seq<Processor>)
    ensures NotManual([p] + t) == (if !p.manual then [p] else []) + NotManual(t)
  {
    assert ([p] + t)[1..] == t;
  }

  lemma EligibleOnlyCons(p: Processor, t: seq<Processor>, code: string)
    ensures EligibleOnly([p] + t, code) == (if Eligible(p, code) then [p] else []) + EligibleOnly(t, code)
  {
    assert ([p] + t)[1..] == t;
  }

  lemma OfPriorityCons(p: Processor, t: seq<Processor>, k: int)
    ensures OfPriority([p] + t, k) == (if PriorityOf(p) == k then [p] else []) + OfPriority(t, k)
  {
    assert ([p] + t)[1..] == t;
  }

  /** The two filters of `parseScript` together keep exactly the eligible processors. */
  lemma {:induction false} FiltersCompose(s: seq<Processor>, code: string)
    ensures NotManual(WithFindsHolding(s, code)) == EligibleOnly(s, code)
  {
    if s != [] {
      FiltersCompose(s[1..], code);
      var t := WithFindsHolding(s[1..], code);
      var head := if FindsHold(s[0], code) then [s[0]] else [];
      assert WithFindsHolding(s, code) == head + t;
      if FindsHold(s[0], code) {
        NotManualCons(s[0], t);
        assert NotManual(head + t) == (if !s[0].manual then [s[0]] else []) + NotManual(t);
      } else {
        assert head + t == t;
      }
    }
  }

  lemma {:induction false} EligibleOfPriority(s: seq<Processor>, code: string, k: int)
    ensures OfPriority(EligibleOnly(s, code), k) == EligibleOnly(OfPriority(s, k), code)
  {
    if s != [] {
      EligibleOfPriority(s[1..], code, k);
      var e := EligibleOnly(s[1..], code);
      var o := OfPriority(s[1..], k);
      var x := s[0];
      assert EligibleOnly(s, code) == (if Eligible(x, code) then [x] else []) + e;
      assert OfPriority(s, k) == (if PriorityOf(x) == k then [x] else []) + o;
      if Eligible(x, code) {
        OfPriorityCons(x, e, k);
      } else {
        assert [] + e == e;
      }
      if PriorityOf(x) == k {
        EligibleOnlyCons(x, o, code);
      } else {
        assert [] + o == o;
      }
    }
  }

  /** What `parseScript` selects: exactly the eligible registry entries,
      by ascending priority, equal priorities in registration order. */
  lemma AvailableSpec(registry: seq<Processor>, code: string)
    ensures forall p <- Available(registry, code) :: p in registry && Eligible(p, code)
    ensures forall p <- registry :: Eligible(p, code) ==> p in Available(registry, code)
    ensures SortedByPriority(Available(registry, code))
    ensures forall k :: OfPriority(Available(registry, code), k) == EligibleOnly(OfPriority(registry, k), code)
  {
    var sorted := SortByPriority(registry);
    assert forall p :: p in sorted <==> p in multiset(sorted);
    SortIsSorted(registry);
    FindFilterSorted(sorted, code);
    ManualFilterSorted(WithFindsHolding(sorted, code));
    FiltersCompose(sorted, code);
    forall k ensures OfPriority(Available(registry, code), k) == EligibleOnly(OfPriority(registry, k), code) {
      EligibleOfPriority(sorted, code, k);
      SortIsStable(registry, k);
    }
  }
}
