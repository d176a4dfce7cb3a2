/** Keyboard shortcuts as a small state machine. A shortcut such as
    "Ctrl+Alt+Key1" is split on '+'; each token is looked up to a key, and
    the keys form a chain of transitions from `Empty` through one named
    state per prefix to `Accept`, whose last transition carries the
    shortcut's callback. Reaching `Accept` resets the machine to `Empty`.
    Callbacks are closures in the program; here each is identified by a
    number, and the trigger records the numbers of the callbacks it fires. */
module Shortcut {
  import opened Wrappers
  import opened Messages

  datatype State = Empty | StateOf(name: string) | Error | Accept

  /** A transition: the state it leads to and the callback it fires. */
  datatype Trans = Trans(state: State, callback: Option<nat>)

  /** Per state, the transition each key takes. */
  type Table = map<State, map<Key, Trans>>

  function Fired(callback: Option<nat>): (r: seq<nat>)
    ensures |r| <= 1 && (r != [] <==> callback.Some?)
  {
    if callback.Some? then [callback.value] else []
  }

  // ---------------------------------------------------------------------
  // Running the machine

  /** One key event: the state after it and the callback it fires. A key
      without a transition from the current state changes nothing; a
      transition into `Accept` ends in `Empty`. */
  function Step(table: Table, current: State, e: Key): (r: (State, Option<nat>))
    ensures current in table && e in table[current] ==>
              r.1 == table[current][e].callback
    // the transition's target is taken, except that accepting returns to the start
    ensures current in table && e in table[current] ==>
              r.0 == (if table[current][e].state == Accept then Empty else table[current][e].state)
    ensures r.0 != Accept || current == Accept
    ensures !(current in table && e in table[current]) ==> r == (current, None)
  {
    if current in table && e in table[current] then
      var t := table[current][e];
      (if t.state == Accept then Empty else t.state, t.callback)
    else (current, None)
  }

  /** A sequence of key events from `s`: the final state and the callbacks
      fired, in order. */
  function Run(table: Table, s: State, es: seq<Key>): (r: (State, seq<nat>))
    ensures |r.1| <= |es|
    ensures s != Accept ==> r.0 != Accept
  {
    if es == [] then (s, [])
    else
      var prev := Run(table, s, es[..|es| - 1]);
      var step := Step(table, prev.0, es[|es| - 1]);
      (step.0, prev.1 + Fired(step.1))
  }

  /** Running a non-empty sequence is running all but the last key, then
      stepping on the last one. */
  lemma RunLast(table: Table, s: State, es: seq<Key>)
    requires es != []
    ensures var prev := Run(table, s, es[..|es| - 1]);
            var step := Step(table, prev.0, es[|es| - 1]);
            Run(table, s, es) == (step.0, prev.1 + Fired(step.1))
  {
  }

  class ShortcutTrigger {
    const table: Table
    var currentState: State
    /** Callbacks fired so far, in order. */
    var fired: seq<nat>

    constructor (table: Table, initial: State)
      ensures this.table == table && currentState == initial && fired == []
    {
      this.table := table;
      currentState := initial;
      fired := [];
    }

    method Trigger(e: Key)
      modifies this
      ensures currentState == Step(table, old(currentState), e).0
      ensures fired == old(fired) + Fired(Step(table, old(currentState), e).1)
    {
      if currentState in table && e in table[currentState] {
        var inner := table[currentState][e];
        currentState := inner.state;
        if inner.callback.Some? {
          fired := fired + [inner.callback.value];
        }
        if currentState == Accept {
          Reset();
        }
      }
    }

    method Reset()
      modifies this
      ensures currentState == Empty && fired == old(fired)
    {
      currentState := Empty;
    }
  }

  // ---------------------------------------------------------------------
  // Shortcut strings

  /** Splitting on '+': every separator starts a new token, so the result
      is never empty ("" gives one empty token, "a+" gives "a" and ""). */
  function Split(s: string): (r: seq<string>)
    ensures |r| >= 1
    ensures forall k :: 0 <= k < |r| ==> '+' !in r[k]
  {
    if s == [] then [[]]
    else
      var r := Split(s[..|s| - 1]);
      var c := s[|s| - 1];
      if c == '+' then r + [[]]
      else r[..|r| - 1] + [r[|r| - 1] + [c]]
  }

  /** Tokens joined with '+' separators. */
  function Join(ts: seq<string>): (s: string)
    requires |ts| >= 1
    ensures |s| >= |ts| - 1
  {
    if |ts| == 1 then ts[0] else Join(ts[..|ts| - 1]) + "+" + ts[|ts| - 1]
  }

  lemma {:induction false} JoinSplit(s: string)
    ensures Join(Split(s)) == s
  {
    if s != [] {
      var init, c := s[..|s| - 1], s[|s| - 1];
      assert s == init + [c];
      var r := Split(init);
      JoinSplit(init);
      if c == '+' {
        assert (r + [[]])[..|r|] == r;
      } else {
        var r' := r[..|r| - 1] + [r[|r| - 1] + [c]];
        assert Split(s) == r';
        if |r| == 1 {
          assert Join(r') == r[0] + [c];
        } else {
          assert r'[..|r'| - 1] == r[..|r| - 1];
          assert Join(r') == Join(r[..|r| - 1]) + "+" + (r[|r| - 1] + [c]);
        }
      }
    }
  }

  /** A token without separators splits to itself. */
  lemma {:induction false} SplitToken(t: string)
    requires '+' !in t
    ensures Split(t) == [t]
  {
    if t != [] {
      assert '+' !in t[..|t| - 1];
      SplitToken(t[..|t| - 1]);
      assert t[..|t| - 1] + [t[|t| - 1]] == t;
    }
  }

  /** Appending a separator and a token appends one token. */
  lemma {:induction false} SplitAppend(s: string, t: string)
    requires '+' !in t
    ensures Split(s + "+" + t) == Split(s) + [t]
    decreases |t|
  {
    if t == [] {
      assert (s + "+" + t)[..|s + "+" + t| - 1] == s;
    } else {
      var t' := t[..|t| - 1];
      assert '+' !in t';
      SplitAppend(s, t');
      assert (s + "+" + t)[..|s + "+" + t| - 1] == s + "+" + t';
      assert t' + [t[|t| - 1]] == t;
    }
  }

  lemma {:induction false} SplitJoin(ts: seq<string>)
    requires |ts| >= 1
    requires forall k :: 0 <= k < |ts| ==> '+' !in ts[k]
    ensures Split(Join(ts)) == ts
  {
    if |ts| == 1 {
      SplitToken(ts[0]);
    } else {
      var init := ts[..|ts| - 1];
      SplitJoin(init);
      SplitAppend(Join(init), ts[|ts| - 1]);
      assert init + [ts[|ts| - 1]] == ts;
    }
  }

  /** Tokens concatenated without separators: the name of a prefix state. */
  function Flatten(ts: seq<string>): string
  {
    if ts == [] then [] else Flatten(ts[..|ts| - 1]) + ts[|ts| - 1]
  }

  /** With non-empty tokens, a longer prefix has a longer name. */
  lemma {:induction false} FlattenGrows(ts: seq<string>, i: nat, j: nat)
    requires i < j <= |ts|
    requires NonEmptyTokens(ts)
    ensures |Flatten(ts[..i])| < |Flatten(ts[..j])|
    decreases j
  {
    assert ts[..j][..j - 1] == ts[..j - 1];
    if i < j - 1 {
      FlattenGrows(ts, i, j - 1);
    }
  }

  // ---------------------------------------------------------------------
  // Building the table

  /** The shortcut names the program knows and their keys. */
  function GetLut(): (lut: map<string, Key>)
    ensures forall name :: name in lut ==> name != [] && '+' !in name
    ensures forall n1, n2 :: n1 in lut && n2 in lut && n1 != n2 ==> lut[n1] != lut[n2]
    ensures "Ctrl" in lut && "Alt" in lut && "Key1" in lut
  {
    map["Ctrl" := LControl, "Alt" := LAlt, "Key1" := Key1, "Key2" := Key2,
        "Key3" := Key3, "Key4" := Key4, "Key5" := Key5, "Key6" := Key6]
  }

  predicate NonEmptyTokens(ts: seq<string>)
  {
    forall k :: 0 <= k < |ts| ==> ts[k] != []
  }

  predicate Known(tokens: seq<string>, lut: map<string, Key>)
  {
    forall k :: 0 <= k < |tokens| ==> tokens[k] in lut
  }

  /** Every token of the first `n` shortcuts has a key. */
  predicate AllKnown(shortcuts: seq<string>, n: nat, lut: map<string, Key>)
    requires n <= |shortcuts|
  {
    n == 0 || (AllKnown(shortcuts, n - 1, lut) && Known(Split(shortcuts[n - 1]), lut))
  }

  /** One shortcut with an unknown token spoils every longer prefix. */
  lemma {:induction false} UnknownTokenFails(shortcuts: seq<string>, n: nat, lut: map<string, Key>, j: nat)
    requires j < n <= |shortcuts| && !Known(Split(shortcuts[j]), lut)
    ensures !AllKnown(shortcuts, n, lut)
  {
    if j < n - 1 {
      UnknownTokenFails(shortcuts, n - 1, lut, j);
    }
  }

  /** Conversely, when every prefix entry is known, so is each shortcut. */
  lemma {:induction false} AllKnownEach(shortcuts: seq<string>, n: nat, lut: map<string, Key>, j: nat)
    requires j < n <= |shortcuts| && AllKnown(shortcuts, n, lut)
    ensures Known(Split(shortcuts[j]), lut)
  {
    if j < n - 1 {
      AllKnownEach(shortcuts, n - 1, lut, j);
    }
  }

  /** The state the chain of `tokens` is in after reading `i` of them. */
  function From(tokens: seq<string>, i: nat): State
    requires i <= |tokens|
  {
    if i == 0 then Empty else StateOf(Flatten(tokens[..i]))
  }

  /** The state reading token `i` leads to: the next prefix, or `Accept`
      after the last one. */
  function NextState(tokens: seq<string>, i: nat): State
    requires i < |tokens|
  {
    if i == |tokens| - 1 then Accept else From(tokens, i + 1)
  }

  /** A transition to insert: from a state, on a key. */
  datatype Link = Link(from: State, key: Key, trans: Trans)

  /** The transitions one shortcut contributes: link `i` reads token `i`
      from the state of the first `i` tokens; only the last one fires. */
  function Chain(tokens: seq<string>, lut: map<string, Key>, callback: nat): (c: seq<Link>)
    requires |tokens| >= 1 && Known(tokens, lut)
    ensures |c| == |tokens|
  {
    seq(|tokens|, i requires 0 <= i < |tokens| =>
      Link(From(tokens, i), lut[tokens[i]],
           Trans(NextState(tokens, i), if i == |tokens| - 1 then Some(callback) else None)))
  }

  /** A chain starts in `Empty`; each link leads, silently, to the state
      the next one starts from, named by the tokens read so far; the last
      link accepts and fires the callback. */
  lemma ChainShape(tokens: seq<string>, lut: map<string, Key>, callback: nat)
    requires |tokens| >= 1 && Known(tokens, lut)
    ensures var c := Chain(tokens, lut, callback);
            && c[0].from == Empty
            && (forall i :: 0 <= i < |c| ==> c[i].key == lut[tokens[i]])
            && (forall i :: 0 <= i < |c| - 1 ==> c[i].trans == Trans(c[i + 1].from, None))
            && c[|c| - 1].trans == Trans(Accept, Some(callback))
            && (forall i :: 0 < i < |c| ==> c[i].from == StateOf(Flatten(tokens[..i])))
  {
  }

  /** Insert one transition, creating the state's entry if it is missing;
      an existing transition on the same key is replaced. */
  function Insert(table: Table, l: Link): (r: Table)
    ensures r.Keys == table.Keys + {l.from}
    ensures l.key in r[l.from] && r[l.from][l.key] == l.trans
  {
    table[l.from := (if l.from in table then table[l.from] else map[])[l.key := l.trans]]
  }

  /** Insertion keeps every other transition and adds no other one. */
  lemma InsertKeepsOthers(table: Table, l: Link, s: State, k: Key)
    requires s != l.from || k != l.key
    ensures s in table && k in table[s] ==> s in Insert(table, l) && k in Insert(table, l)[s] && Insert(table, l)[s][k] == table[s][k]
    ensures s in Insert(table, l) && k in Insert(table, l)[s] ==> s in table && k in table[s]
  {
  }

  function InsertChain(table: Table, links: seq<Link>): Table
  {
    if links == [] then table else Insert(InsertChain(table, links[..|links| - 1]), links[|links| - 1])
  }

  /** When no two links start from the same state, every link is in the
      table afterwards. */
  lemma {:induction false} InsertChainFinds(table: Table, links: seq<Link>, i: nat)
    requires i < |links|
    requires forall a, b :: 0 <= a < b < |links| ==> links[a].from != links[b].from
    ensures var r := InsertChain(table, links);
            links[i].from in r && links[i].key in r[links[i].from] && r[links[i].from][links[i].key] == links[i].trans
  {
    var init := links[..|links| - 1];
    if i < |links| - 1 {
      InsertChainFinds(table, init, i);
      InsertKeepsOthers(InsertChain(table, init), links[|links| - 1], links[i].from, links[i].key);
    }
  }

  const InitialTable: Table := map[Empty := map[]]

  /** The table built from the first `n` shortcuts, later ones inserted
      over earlier ones. */
  function TableOf(shortcuts: seq<string>, callbacks: seq<nat>, lut: map<string, Key>, n: nat): Table
    requires n <= |shortcuts| && n <= |callbacks| && AllKnown(shortcuts, n, lut)
  {
    if n == 0 then InitialTable
    else InsertChain(TableOf(shortcuts, callbacks, lut, n - 1), Chain(Split(shortcuts[n - 1]), lut, callbacks[n - 1]))
  }

  /** The transitions of one shortcut before insertion: per token its key
      and the state it leads to, with the callback on the last one only.
      Fails as soon as a token has no key. */
  method TransPairs(splits: seq<string>, lut: map<string, Key>, callback: nat)
    returns (r: Option<seq<(Key, State, Option<nat>)>>)
    requires |splits| >= 1
    ensures r.Some? <==> Known(splits, lut)
    ensures r.Some? ==>
              var c := Chain(splits, lut, callback);
              |r.value| == |splits| &&
              forall i :: 0 <= i < |splits| ==> r.value[i] == (c[i].key, c[i].trans.state, c[i].trans.callback)
  {
    var transPair: seq<(Key, State, Option<nat>)> := [];
    var uniqueState: string := [];
    for i := 0 to |splits|
      invariant |transPair| == i
      invariant forall k :: 0 <= k < i ==> splits[k] in lut
      invariant uniqueState == Flatten(splits[..i])
      invariant forall k :: 0 <= k < i ==> transPair[k] == (lut[splits[k]], NextState(splits, k), None)
    {
      if splits[i] !in lut {
        return None;
      }
      var trigger := lut[splits[i]];
      assert splits[..i + 1][..i] == splits[..i];
      uniqueState := uniqueState + splits[i];
      if i == |splits| - 1 {
        transPair := transPair + [(trigger, Accept, None)];
      } else {
        transPair := transPair + [(trigger, StateOf(uniqueState), None)];
      }
    }
    var last := transPair[|transPair| - 1];
    transPair := transPair[|transPair| - 1 := (last.0, last.1, Some(callback))];
    return Some(transPair);
  }

  /** Insert one shortcut's transitions, each from the state the previous
      one leads to, starting from `Empty`. */
  method InsertPairs(table: Table, transPair: seq<(Key, State, Option<nat>)>,
                     ghost splits: seq<string>, ghost lut: map<string, Key>, ghost callback: nat)
    returns (t: Table)
    requires |splits| >= 1 && Known(splits, lut) && |transPair| == |splits|
    requires var c := Chain(splits, lut, callback);
             forall i :: 0 <= i < |splits| ==> transPair[i] == (c[i].key, c[i].trans.state, c[i].trans.callback)
    ensures t == InsertChain(table, Chain(splits, lut, callback))
  {
    ghost var chain := Chain(splits, lut, callback);
    t := table;
    var state := Empty;
    for i := 0 to |transPair|
      invariant t == InsertChain(table, chain[..i])
      invariant i < |transPair| ==> state == chain[i].from
    {
      var (event, s, cb) := transPair[i];
      assert Link(state, event, Trans(s, cb)) == chain[i];
      ghost var prev := t;
      if state in t {
        t := t[state := t[state][event := Trans(s, cb)]];
      } else {
        t := t[state := map[event := Trans(s, cb)]];
      }
      assert t == Insert(prev, chain[i]);
      assert chain[..i + 1][..i] == chain[..i];
      assert InsertChain(table, chain[..i + 1]) == Insert(InsertChain(table, chain[..i]), chain[i]);
      state := s;
    }
    assert chain[..|transPair|] == chain;
  }

  /** One shortcut's part of the build: split it, look its tokens up and
      insert its chain; fails when a token has no key. */
  method AddShortcut(table: Table, shortcut: string, callback: nat, lut: map<string, Key>) returns (r: Option<Table>)
    ensures r.Some? <==> Known(Split(shortcut), lut)
    ensures r.Some? ==> r.value == InsertChain(table, Chain(Split(shortcut), lut, callback))
  {
    var splits := Split(shortcut);
    var transPair := TransPairs(splits, lut, callback);
    if transPair.None? {
      return None;
    }
    var t := InsertPairs(table, transPair.value, splits, lut, callback);
    return Some(t);
  }

  /** The next shortcut's chain goes on top of the table built so far. */
  lemma TableOfNext(shortcuts: seq<string>, callbacks: seq<nat>, lut: map<string, Key>, j: nat)
    requires j < |shortcuts| && j < |callbacks| && AllKnown(shortcuts, j, lut)
    requires Known(Split(shortcuts[j]), lut)
    ensures AllKnown(shortcuts, j + 1, lut)
    ensures TableOf(shortcuts, callbacks, lut, j + 1)
            == InsertChain(TableOf(shortcuts, callbacks, lut, j), Chain(Split(shortcuts[j]), lut, callbacks[j]))
  {
  }

  class ShortcutTriggerBuilder {
    var shortcuts: seq<string>
    var callbacks: seq<nat>
    const lut: map<string, Key>

    constructor (dict: map<string, Key>)
      ensures shortcuts == [] && callbacks == [] && lut == dict
    {
      shortcuts := [];
      callbacks := [];
      lut := dict;
    }

    method WithShortcut(shortcut: string, trigger: nat)
      modifies this
      ensures shortcuts == old(shortcuts) + [shortcut] && callbacks == old(callbacks) + [trigger]
    {
      shortcuts := shortcuts + [shortcut];
      callbacks := callbacks + [trigger];
    }

    /** Shortcuts and callbacks are paired up; any unpaired tail is
        ignored. */
    function Count(): (n: nat)
      reads this
      ensures n <= |shortcuts| && n <= |callbacks|
      ensures n == |shortcuts| || n == |callbacks|
    {
      if |shortcuts| < |callbacks| then |shortcuts| else |callbacks|
    }

    /** Fails exactly when some token of some shortcut has no key; otherwise
        a trigger in `Empty` over the table of all the shortcuts. */
    method Build() returns (r: Result<ShortcutTrigger, ()>)
      ensures r.Ok? <==> AllKnown(shortcuts, Count(), lut)
      ensures r.Ok? ==> fresh(r.value) && r.value.currentState == Empty && r.value.fired == []
                        && r.value.table == TableOf(shortcuts, callbacks, lut, Count())
    {
      var table := InitialTable;
      var n := Count();
      for j := 0 to n
        invariant AllKnown(shortcuts, j, lut)
        invariant table == TableOf(shortcuts, callbacks, lut, j)
      {
        var next := AddShortcut(table, shortcuts[j], callbacks[j], lut);
        if next.None? {
          UnknownTokenFails(shortcuts, n, lut, j);
          return Err(());
        }
        TableOfNext(shortcuts, callbacks, lut, j);
        table := next.value;
      }
      var trigger := new ShortcutTrigger(table, Empty);
      return Ok(trigger);
    }
  }

  // ---------------------------------------------------------------------
  // What a built table does

  /** The keys a shortcut's tokens stand for. */
  function KeysOf(tokens: seq<string>, lut: map<string, Key>): (ks: seq<Key>)
    requires Known(tokens, lut)
    ensures |ks| == |tokens| && forall i :: 0 <= i < |ks| ==> ks[i] == lut[tokens[i]]
  {
    seq(|tokens|, i requires 0 <= i < |tokens| => lut[tokens[i]])
  }

  /** The chain of a shortcut with non-empty tokens starts from a different
      state at every link. */
  lemma {:induction false} ChainFromsDistinct(tokens: seq<string>, lut: map<string, Key>, callback: nat)
    requires |tokens| >= 1 && Known(tokens, lut)
    requires NonEmptyTokens(tokens)
    ensures var c := Chain(tokens, lut, callback);
            forall a, b :: 0 <= a < b < |c| ==> c[a].from != c[b].from
  {
    var c := Chain(tokens, lut, callback);
    forall a, b | 0 <= a < b < |c|
      ensures c[a].from != c[b].from
    {
      if a > 0 {
        FlattenGrows(tokens, a, b);
      }
    }
  }

  /** In a table holding a shortcut's chain, the key of token `i` read in
      the state of the first `i` tokens moves silently to the next prefix
      state, or, after the last token, fires the callback and ends in
      `Empty`. */
  lemma {:induction false} ChainLinkStep(table: Table, tokens: seq<string>, lut: map<string, Key>, callback: nat, i: nat)
    requires |tokens| >= 1 && Known(tokens, lut) && i < |tokens|
    requires var c := Chain(tokens, lut, callback);
             forall a :: 0 <= a < |c| ==> c[a].from in table && c[a].key in table[c[a].from]
                                          && table[c[a].from][c[a].key] == c[a].trans
    ensures Step(table, From(tokens, i), lut[tokens[i]])
            == if i + 1 < |tokens| then (From(tokens, i + 1), None) else (Empty, Some(callback))
  {
    var c := Chain(tokens, lut, callback);
    assert c[i] == Link(From(tokens, i), lut[tokens[i]], Trans(NextState(tokens, i), if i == |tokens| - 1 then Some(callback) else None));
  }

  /** The step a table takes on each key of a shortcut, as its chain
      prescribes. */
  predicate StepsAlong(table: Table, tokens: seq<string>, lut: map<string, Key>, callback: nat)
    requires Known(tokens, lut)
  {
    && |tokens| >= 1
    && (forall a :: 0 <= a < |tokens| - 1 ==> Step(table, From(tokens, a), lut[tokens[a]]) == (From(tokens, a + 1), None))
    && Step(table, From(tokens, |tokens| - 1), lut[tokens[|tokens| - 1]]) == (Empty, Some(callback))
  }

  /** Keys that each step silently along a path of states leave the
      machine at the matching point of the path with nothing fired. */
  lemma {:induction false} RunSilent(table: Table, path: seq<State>, ks: seq<Key>, i: nat)
    requires |path| == |ks| + 1 && i <= |ks|
    requires forall a :: 0 <= a < |ks| ==> Step(table, path[a], ks[a]) == (path[a + 1], None)
    ensures Run(table, path[0], ks[..i]) == (path[i], [])
  {
    if i > 0 {
      RunSilent(table, path, ks, i - 1);
      assert ks[..i][..i - 1] == ks[..i - 1];
      RunLast(table, path[0], ks[..i]);
    } else {
      assert ks[..i] == [];
    }
  }

  /** The prefix states of a shortcut, one per token. */
  function PrefixPath(tokens: seq<string>): (path: seq<State>)
    ensures |path| == |tokens|
    ensures forall a :: 0 <= a < |tokens| ==> path[a] == From(tokens, a)
  {
    seq(|tokens|, a requires 0 <= a < |tokens| => From(tokens, a))
  }

  /** With those steps, reading the first `i < |tokens|` keys of the
      shortcut from `Empty` fires nothing and reaches the `i`-th prefix
      state. */
  lemma {:induction false} RunChainPrefix(table: Table, tokens: seq<string>, lut: map<string, Key>, callback: nat, i: nat)
    requires |tokens| >= 1 && Known(tokens, lut) && i < |tokens|
    requires StepsAlong(table, tokens, lut, callback)
    ensures Run(table, Empty, KeysOf(tokens, lut)[..i]) == (From(tokens, i), [])
  {
    var ks := KeysOf(tokens, lut);
    var m := |tokens| - 1;
    var path := PrefixPath(tokens);
    var silent := ks[..m];
    forall a | 0 <= a < m
      ensures Step(table, path[a], silent[a]) == (path[a + 1], None)
    {
    }
    RunSilent(table, path, silent, i);
    assert silent[..i] == ks[..i];
  }

  /** With those steps, reading all the keys of the shortcut from `Empty`
      fires the callback once and ends in `Empty`. */
  lemma {:induction false} RunChainAll(table: Table, tokens: seq<string>, lut: map<string, Key>, callback: nat)
    requires |tokens| >= 1 && Known(tokens, lut)
    requires StepsAlong(table, tokens, lut, callback)
    ensures Run(table, Empty, KeysOf(tokens, lut)) == (Empty, [callback])
  {
    var ks := KeysOf(tokens, lut);
    var m := |tokens| - 1;
    RunChainPrefix(table, tokens, lut, callback, m);
    assert ks[..|ks| - 1] == ks[..m];
    RunLast(table, Empty, ks);
    assert [] + Fired(Some(callback)) == [callback];
  }

  /** Both together: the first `i` keys reach the `i`-th prefix state
      silently, all of them fire the callback and return to `Empty`. */
  lemma RunChain(table: Table, tokens: seq<string>, lut: map<string, Key>, callback: nat, i: nat)
    requires |tokens| >= 1 && Known(tokens, lut) && i <= |tokens|
    requires StepsAlong(table, tokens, lut, callback)
    ensures var ks := KeysOf(tokens, lut);
            Run(table, Empty, ks[..i]) == (if i < |tokens| then (From(tokens, i), []) else (Empty, [callback]))
  {
    if i < |tokens| {
      RunChainPrefix(table, tokens, lut, callback, i);
    } else {
      RunChainAll(table, tokens, lut, callback);
      assert KeysOf(tokens, lut)[..i] == KeysOf(tokens, lut);
    }
  }

  /** After inserting a chain with non-empty tokens, the table holds every
      one of its links. */
  lemma {:induction false} ChainInTable(table: Table, tokens: seq<string>, lut: map<string, Key>, callback: nat)
    requires |tokens| >= 1 && Known(tokens, lut)
    requires NonEmptyTokens(tokens)
    ensures var c := Chain(tokens, lut, callback);
            var t := InsertChain(table, c);
            forall a :: 0 <= a < |c| ==> c[a].from in t && c[a].key in t[c[a].from] && t[c[a].from][c[a].key] == c[a].trans
  {
    var c := Chain(tokens, lut, callback);
    ChainFromsDistinct(tokens, lut, callback);
    forall a | 0 <= a < |c|
      ensures var t := InsertChain(table, c);
              c[a].from in t && c[a].key in t[c[a].from] && t[c[a].from][c[a].key] == c[a].trans
    {
      InsertChainFinds(table, c, a);
    }
  }

  /** After inserting a shortcut's chain with non-empty tokens, the table
      steps along it. */
  lemma {:induction false} InsertedChainSteps(table: Table, tokens: seq<string>, lut: map<string, Key>, callback: nat)
    requires |tokens| >= 1 && Known(tokens, lut)
    requires NonEmptyTokens(tokens)
    ensures StepsAlong(InsertChain(table, Chain(tokens, lut, callback)), tokens, lut, callback)
  {
    var t := InsertChain(table, Chain(tokens, lut, callback));
    ChainInTable(table, tokens, lut, callback);
    forall a | 0 <= a < |tokens| - 1
      ensures Step(t, From(tokens, a), lut[tokens[a]]) == (From(tokens, a + 1), None)
    {
      ChainLinkStep(t, tokens, lut, callback, a);
    }
    ChainLinkStep(t, tokens, lut, callback, |tokens| - 1);
  }

  /** The table built with a shortcut added last steps along that
      shortcut's chain. */
  lemma {:induction false} LastChainSteps(shortcuts: seq<string>, callbacks: seq<nat>, lut: map<string, Key>, n: nat)
    requires 1 <= n <= |shortcuts| && n <= |callbacks| && AllKnown(shortcuts, n, lut)
    requires NonEmptyTokens(Split(shortcuts[n - 1]))
    ensures Known(Split(shortcuts[n - 1]), lut)
    ensures StepsAlong(TableOf(shortcuts, callbacks, lut, n), Split(shortcuts[n - 1]), lut, callbacks[n - 1])
  {
    var tokens := Split(shortcuts[n - 1]);
    AllKnownEach(shortcuts, n, lut, n - 1);
    assert TableOf(shortcuts, callbacks, lut, n)
        == InsertChain(TableOf(shortcuts, callbacks, lut, n - 1), Chain(tokens, lut, callbacks[n - 1]));
    InsertedChainSteps(TableOf(shortcuts, callbacks, lut, n - 1), tokens, lut, callbacks[n - 1]);
  }

  /** The shortcut added last always works, whatever came before it:
      pressing its keys in order from `Empty` fires its callback exactly
      once and returns to `Empty`. */
  lemma {:induction false} LastShortcutFires(shortcuts: seq<string>, callbacks: seq<nat>, lut: map<string, Key>, n: nat)
    requires 1 <= n <= |shortcuts| && n <= |callbacks| && AllKnown(shortcuts, n, lut)
    requires NonEmptyTokens(Split(shortcuts[n - 1]))
    ensures var ks := KeysOf(Split(shortcuts[n - 1]), lut);
            Run(TableOf(shortcuts, callbacks, lut, n), Empty, ks) == (Empty, [callbacks[n - 1]])
  {
    var tokens := Split(shortcuts[n - 1]);
    var table := TableOf(shortcuts, callbacks, lut, n);
    LastChainSteps(shortcuts, callbacks, lut, n);
    RunChain(table, tokens, lut, callbacks[n - 1], |tokens|);
    assert KeysOf(tokens, lut)[..|tokens|] == KeysOf(tokens, lut);
  }

  /** "Ctrl+Alt+Key1" with the program's key names: pressing left Control,
      left Alt and 1 fires the callback once and returns to `Empty`. */
  lemma CtrlAltKey1Fires(callback: nat)
    ensures Split("Ctrl+Alt+Key1") == ["Ctrl", "Alt", "Key1"]
    ensures AllKnown(["Ctrl+Alt+Key1"], 1, GetLut())
    ensures Run(TableOf(["Ctrl+Alt+Key1"], [callback], GetLut(), 1), Empty, [LControl, LAlt, Key1]) == (Empty, [callback])
  {
    var ts := ["Ctrl", "Alt", "Key1"];
    assert Split("Ctrl+Alt+Key1") == ts by {
      assert Join(ts) == "Ctrl+Alt+Key1";
      SplitJoin(ts);
    }
    var lut := GetLut();
    assert Known(ts, lut) && KeysOf(ts, lut) == [LControl, LAlt, Key1] by {
      CtrlAltKey1Keys();
    }
    assert AllKnown(["Ctrl+Alt+Key1"], 1, lut);
    LastShortcutFires(["Ctrl+Alt+Key1"], [callback], lut, 1);
  }

  lemma CtrlAltKey1Keys()
    ensures Known(["Ctrl", "Alt", "Key1"], GetLut())
    ensures KeysOf(["Ctrl", "Alt", "Key1"], GetLut()) == [LControl, LAlt, Key1]
  {
    var ts, lut := ["Ctrl", "Alt", "Key1"], GetLut();
    assert lut["Ctrl"] == LControl && lut["Alt"] == LAlt && lut["Key1"] == Key1;
    var ks := KeysOf(ts, lut);
    assert ks[0] == LControl && ks[1] == LAlt && ks[2] == Key1;
  }

  /** A shortcut whose tokens are a proper prefix of the last one added
      never fires any more: the later insertion replaces its accepting
      transition, so its keys leave the machine waiting in the state named
      by its tokens, with nothing fired ("Ctrl+Alt" before "Ctrl+Alt+Key1"
      ends in the "CtrlAlt" state). */
  lemma {:induction false} PrefixShortcutShadowed(shortcuts: seq<string>, callbacks: seq<nat>, lut: map<string, Key>, n: nat, j: nat)
    requires 1 <= n <= |shortcuts| && n <= |callbacks| && AllKnown(shortcuts, n, lut)
    requires j < n - 1
    requires NonEmptyTokens(Split(shortcuts[n - 1]))
    requires |Split(shortcuts[j])| < |Split(shortcuts[n - 1])|
    requires Split(shortcuts[j]) == Split(shortcuts[n - 1])[..|Split(shortcuts[j])|]
    ensures var p := Split(shortcuts[j]);
            Known(p, lut) && Run(TableOf(shortcuts, callbacks, lut, n), Empty, KeysOf(p, lut)) == (StateOf(Flatten(p)), [])
  {
    var p, q := Split(shortcuts[j]), Split(shortcuts[n - 1]);
    AllKnownEach(shortcuts, n, lut, j);
    AllKnownEach(shortcuts, n, lut, n - 1);
    var table := TableOf(shortcuts, callbacks, lut, n);
    assert Run(table, Empty, KeysOf(q, lut)[..|p|]) == (From(q, |p|), []) by {
      LastChainSteps(shortcuts, callbacks, lut, n);
      RunChain(table, q, lut, callbacks[n - 1], |p|);
    }
    assert From(q, |p|) == StateOf(Flatten(p));
    assert KeysOf(q, lut)[..|p|] == KeysOf(p, lut);
  }
}
