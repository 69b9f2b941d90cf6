/**
 * The `formatCommand` helper of the `/GetCommandsList` route: one list of distinct regular
 * expressions per command name, where a name already taken is qualified by the plugin directory
 * and a repeated expression keeps the lowest priority seen.
 */
module CommandsList {
  import opened Wrappers
  import opened AppCommands

  /** An expression with the priority of the command it was last (re)placed by. */
  datatype Ranked = Ranked(reg: string, priority: int)

  type Ranking = map<string, seq<Ranked>>

  /** `list.map(c => c.reg)`. */
  function Regs(list: seq<Ranked>): (r: seq<string>)
    ensures |r| == |list|
    ensures forall j :: 0 <= j < |list| ==> r[j] == list[j].reg
  {
    seq(|list|, j requires 0 <= j < |list| => list[j].reg)
  }

  /** The expressions of a command's rules, in order. */
  function RuleRegs(rule: seq<Rule>): (r: seq<string>)
    ensures |r| == |rule|
    ensures forall j :: 0 <= j < |rule| ==> r[j] == rule[j].reg
  {
    seq(|rule|, j requires 0 <= j < |rule| => rule[j].reg)
  }

  ghost predicate Distinct(s: seq<string>)
  {
    forall i, j :: 0 <= i < j < |s| ==> s[i] != s[j]
  }

  function Min(a: int, b: int): int
  {
    if a <= b then a else b
  }

  /**
   * The reference meaning of "in order of first occurrence": each element of `s` once, at the
   * place it first appears.
   */
  function Dedup(s: seq<string>): seq<string>
    decreases |s|
  {
    if s == [] then []
    else
      var d := Dedup(s[..|s| - 1]);
      if s[|s| - 1] in d then d else d + [s[|s| - 1]]
  }

  /** The de-duplication holds each element of the list, and nothing else, exactly once. */
  lemma {:induction false} DedupSound(s: seq<string>)
    ensures Distinct(Dedup(s))
    ensures forall x :: x in Dedup(s) <==> x in s
    decreases |s|
  {
    if s != [] {
      var n := |s| - 1;
      DedupSound(s[..n]);
      assert s == s[..n] + [s[n]];
      assert forall x :: x in s <==> x in s[..n] || x == s[n];
    }
  }

  /** De-duplicating one more element appends it unless it has been seen. */
  lemma DedupSnoc(s: seq<string>, x: string)
    ensures Dedup(s + [x]) == if x in Dedup(s) then Dedup(s) else Dedup(s) + [x]
  {
    assert (s + [x])[..|s + [x]| - 1] == s;
  }

  /** A de-duplicated list that grows exactly when a new element is unseen is the next de-duplication. */
  lemma DedupStep(d: seq<string>, s: seq<string>, x: string, next: seq<string>)
    requires d == Dedup(s)
    requires next == if x in d then d else d + [x]
    ensures next == Dedup(s + [x])
  {
    DedupSnoc(s, x);
  }

  /** A list that is already free of repeats is its own de-duplication. */
  lemma {:induction false} DedupOfDistinct(s: seq<string>)
    requires Distinct(s)
    ensures Dedup(s) == s
    decreases |s|
  {
    if s != [] {
      var n := |s| - 1;
      DedupOfDistinct(s[..n]);
      assert s[n] !in s[..n];
      assert s[..n] + [s[n]] == s;
    }
  }

  /** `list.findIndex(c => c.reg === reg)`: the first position holding `reg`, or -1. */
  function FindReg(list: seq<Ranked>, reg: string): (r: int)
    ensures -1 <= r < |list|
    ensures r == -1 <==> forall j :: 0 <= j < |list| ==> list[j].reg != reg
    ensures r >= 0 ==> list[r].reg == reg && forall j :: 0 <= j < r ==> list[j].reg != reg
    decreases |list|
  {
    if list == [] then -1
    else if list[0].reg == reg then 0
    else
      var k := FindReg(list[1..], reg);
      if k == -1 then -1 else k + 1
  }

  /** One rule of a command: a new expression is appended; a known one takes a strictly smaller priority. */
  function Merge(list: seq<Ranked>, reg: string, priority: int): seq<Ranked>
  {
    var idx := FindReg(list, reg);
    if idx > -1 then
      if list[idx].priority > priority then list[idx := Ranked(reg, priority)] else list
    else list + [Ranked(reg, priority)]
  }

  /** The first `n` rules of a command, in order, merged into the list of its key. */
  function MergeFirst(list: seq<Ranked>, rule: seq<Rule>, n: int, priority: int): seq<Ranked>
    requires 0 <= n <= |rule|
    decreases n
  {
    if n == 0 then list else Merge(MergeFirst(list, rule, n - 1, priority), rule[n - 1].reg, priority)
  }

  /** One of the first `n` rules has the expression `reg`. */
  predicate Repeats(rule: seq<Rule>, n: int, reg: string)
    requires 0 <= n <= |rule|
  {
    exists t :: 0 <= t < n && rule[t].reg == reg
  }

  /** The key a command files its rules under: its name, or `dir - name` when the name is taken. */
  function KeyFor(commands: Ranking, c: Command): (key: string)
    ensures key == c.name <==> c.name !in commands
    ensures c.name in commands ==> key == c.dir + " - " + c.name
    ensures |c.name| <= |key| && key[|key| - |c.name|..] == c.name
  {
    if c.name in commands then c.dir + " - " + c.name else c.name
  }

  /** One command of the loop: a command without rules leaves everything as it is. */
  function AddCommand(commands: Ranking, c: Command): Ranking
  {
    if c.rule == [] then commands
    else
      var key := KeyFor(commands, c);
      var start := if key in commands then commands[key] else [];
      commands[key := MergeFirst(start, c.rule, |c.rule|, c.priority)]
  }

  /** The ranking the loop builds from the first commands of `data`. */
  function RankCommands(data: seq<Command>): Ranking
    decreases |data|
  {
    if data == [] then map[] else AddCommand(RankCommands(data[..|data| - 1]), data[|data| - 1])
  }

  /** Every list of the ranking is non-empty and free of repeated expressions. */
  ghost predicate WellFormed(commands: Ranking)
  {
    forall k :: k in commands ==> commands[k] != [] && Distinct(Regs(commands[k]))
  }

  /**
   * One expression merged into a repeat-free list: the expressions stay in place, an unseen one
   * is appended, and the list stays free of repeats.
   */
  lemma MergeRegs(list: seq<Ranked>, reg: string, priority: int)
    requires Distinct(Regs(list))
    ensures Regs(Merge(list, reg, priority)) == if reg in Regs(list) then Regs(list) else Regs(list) + [reg]
    ensures Distinct(Regs(Merge(list, reg, priority)))
  {
    var idx := FindReg(list, reg);
    if idx == -1 {
      assert Regs(Merge(list, reg, priority)) == Regs(list) + [reg];
    } else {
      assert reg in Regs(list);
      assert Regs(Merge(list, reg, priority)) == Regs(list);
    }
  }

  /**
   * Merging one expression into a repeat-free list, seen from an old entry: it keeps its
   * expression, and its priority drops to the command's when it holds that expression and the
   * command's priority is smaller.
   */
  lemma MergeEntry(list: seq<Ranked>, reg: string, priority: int, j: int)
    requires Distinct(Regs(list)) && 0 <= j < |list|
    ensures j < |Merge(list, reg, priority)|
    ensures Merge(list, reg, priority)[j] ==
              Ranked(list[j].reg, if list[j].reg == reg then Min(list[j].priority, priority) else list[j].priority)
  {
  }

  /** Merging an expression the list lacks appends it with the command's priority. */
  lemma MergeAppends(list: seq<Ranked>, reg: string, priority: int)
    requires reg !in Regs(list)
    ensures Merge(list, reg, priority) == list + [Ranked(reg, priority)]
  {
  }

  /** The expressions seen after `n` rules are those seen after `n - 1` and the `n`-th rule's. */
  lemma SeenSnoc(list: seq<Ranked>, rule: seq<Rule>, n: int)
    requires 0 < n <= |rule|
    ensures Regs(list) + RuleRegs(rule)[..n] == (Regs(list) + RuleRegs(rule)[..n - 1]) + [rule[n - 1].reg]
  {
    assert RuleRegs(rule)[..n] == RuleRegs(rule)[..n - 1] + [rule[n - 1].reg];
  }

  /**
   * A command's rules merged into a repeat-free list: the expressions are the old ones followed
   * by the new ones, each once, in order of first occurrence.
   */
  lemma {:induction false} MergeFirstOrder(list: seq<Ranked>, rule: seq<Rule>, n: int, priority: int)
    requires Distinct(Regs(list)) && 0 <= n <= |rule|
    ensures Regs(MergeFirst(list, rule, n, priority)) == Dedup(Regs(list) + RuleRegs(rule)[..n])
    decreases n
  {
    if n == 0 {
      assert Regs(list) + RuleRegs(rule)[..n] == Regs(list);
      DedupOfDistinct(Regs(list));
    } else {
      var x := rule[n - 1].reg;
      var prev := MergeFirst(list, rule, n - 1, priority);
      var seen := Regs(list) + RuleRegs(rule)[..n - 1];
      MergeFirstOrder(list, rule, n - 1, priority);
      DedupSound(seen);
      MergeRegs(prev, x, priority);
      SeenSnoc(list, rule, n);
      DedupStep(Regs(prev), seen, x, Regs(Merge(prev, x, priority)));
    }
  }

  /** One of the first `n` rules repeats `reg` when one of the first `n - 1` does or the last one does. */
  lemma RepeatsStep(rule: seq<Rule>, n: int, reg: string)
    requires 0 < n <= |rule|
    ensures Repeats(rule, n, reg) <==> Repeats(rule, n - 1, reg) || rule[n - 1].reg == reg
  {
    if Repeats(rule, n, reg) && rule[n - 1].reg != reg {
      var t :| 0 <= t < n && rule[t].reg == reg;
      assert t < n - 1;
    }
  }

  /**
   * An old entry after merging a command's first `n` rules into a repeat-free list: it keeps its
   * place and its expression; when one of the rules repeats the expression it keeps the smaller
   * of its priority and the command's, otherwise its own.
   */
  lemma {:induction false} MergeFirstEntry(list: seq<Ranked>, rule: seq<Rule>, n: int, priority: int, j: int)
    requires Distinct(Regs(list)) && 0 <= n <= |rule| && 0 <= j < |list|
    ensures j < |MergeFirst(list, rule, n, priority)|
    ensures MergeFirst(list, rule, n, priority)[j].reg == list[j].reg
    ensures Repeats(rule, n, list[j].reg) ==> MergeFirst(list, rule, n, priority)[j].priority == Min(list[j].priority, priority)
    ensures !Repeats(rule, n, list[j].reg) ==> MergeFirst(list, rule, n, priority)[j].priority == list[j].priority
    decreases n
  {
    if n > 0 {
      var prev := MergeFirst(list, rule, n - 1, priority);
      MergeFirstEntry(list, rule, n - 1, priority, j);
      MergeFirstDistinct(list, rule, n - 1, priority);
      MergeEntry(prev, rule[n - 1].reg, priority, j);
      RepeatsStep(rule, n, list[j].reg);
    }
  }

  /** Every entry a command's rules append carries the command's priority. */
  lemma {:induction false} MergeFirstNewPriority(list: seq<Ranked>, rule: seq<Rule>, n: int, priority: int, j: int)
    requires Distinct(Regs(list)) && 0 <= n <= |rule| && |list| <= j < |MergeFirst(list, rule, n, priority)|
    ensures MergeFirst(list, rule, n, priority)[j].priority == priority
    decreases n
  {
    if n > 0 {
      var x := rule[n - 1].reg;
      var prev := MergeFirst(list, rule, n - 1, priority);
      MergeFirstDistinct(list, rule, n - 1, priority);
      if j < |prev| {
        MergeFirstNewPriority(list, rule, n - 1, priority, j);
        MergeEntry(prev, x, priority, j);
      } else {
        MergeRegs(prev, x, priority);
        MergeAppends(prev, x, priority);
      }
    }
  }

  /** Merging rules into a repeat-free list leaves it free of repeats. */
  lemma MergeFirstDistinct(list: seq<Ranked>, rule: seq<Rule>, n: int, priority: int)
    requires Distinct(Regs(list)) && 0 <= n <= |rule|
    ensures Distinct(Regs(MergeFirst(list, rule, n, priority)))
  {
    MergeFirstOrder(list, rule, n, priority);
    DedupSound(Regs(list) + RuleRegs(rule)[..n]);
  }

  /**
   * One command's effect on a well-formed ranking: without rules, none; otherwise its key (its
   * name, or `dir - name` when the name is already a key) is added if missing, its expressions
   * become the old ones followed by the command's new ones in order of first occurrence, and
   * every other key keeps its list.
   */
  lemma AddCommandEffect(commands: Ranking, c: Command)
    requires WellFormed(commands)
    ensures c.rule == [] ==> AddCommand(commands, c) == commands
    ensures c.rule != [] ==>
      var key := if c.name in commands then c.dir + " - " + c.name else c.name;
      var r := AddCommand(commands, c);
      && r.Keys == commands.Keys + {key}
      && (forall k :: k in commands && k != key ==> r[k] == commands[k])
      && Regs(r[key]) == Dedup((if key in commands then Regs(commands[key]) else []) + RuleRegs(c.rule))
  {
    if c.rule != [] {
      var key := KeyFor(commands, c);
      var start := if key in commands then commands[key] else [];
      assert Regs(start) == if key in commands then Regs(commands[key]) else [];
      MergeFirstOrder(start, c.rule, |c.rule|, c.priority);
      assert RuleRegs(c.rule)[..|c.rule|] == RuleRegs(c.rule);
    }
  }

  /** One command keeps a ranking well formed: its key's list gains at least its first rule and no repeats. */
  lemma AddCommandKeepsWellFormed(commands: Ranking, c: Command)
    requires WellFormed(commands)
    ensures WellFormed(AddCommand(commands, c))
  {
    if c.rule != [] {
      var key := KeyFor(commands, c);
      var start := if key in commands then commands[key] else [];
      AddCommandEffect(commands, c);
      var merged := AddCommand(commands, c)[key];
      DedupSound(Regs(start) + RuleRegs(c.rule));
      assert c.rule[0].reg in Regs(merged) by {
        assert RuleRegs(c.rule)[0] == c.rule[0].reg;
        assert c.rule[0].reg in Regs(start) + RuleRegs(c.rule);
      }
    }
  }


  /** Every list the loop builds is non-empty and free of repeated expressions. */
  lemma {:induction false} RankCommandsWellFormed(data: seq<Command>)
    ensures WellFormed(RankCommands(data))
    decreases |data|
  {
    if data != [] {
      RankCommandsWellFormed(data[..|data| - 1]);
      AddCommandKeepsWellFormed(RankCommands(data[..|data| - 1]), data[|data| - 1]);
    }
  }

  /** Every key comes from a command with rules: its name, or its directory and name. */
  lemma {:induction false} RankedKeyOrigin(data: seq<Command>, key: string)
    requires key in RankCommands(data)
    ensures exists i :: 0 <= i < |data| && data[i].rule != [] &&
              (key == data[i].name || key == data[i].dir + " - " + data[i].name)
    decreases |data|
  {
    var n := |data| - 1;
    var prefix := data[..n];
    var c := data[n];
    if key in RankCommands(prefix) {
      RankedKeyOrigin(prefix, key);
      var i :| 0 <= i < |prefix| && prefix[i].rule != [] &&
              (key == prefix[i].name || key == prefix[i].dir + " - " + prefix[i].name);
      assert data[i] == prefix[i];
    } else {
      assert c.rule != [] && key == KeyFor(RankCommands(prefix), c);
      assert data[n] == c;
    }
  }

  /** A command with rules always leaves its plain name as a key: it either takes it or finds it taken. */
  lemma {:induction false} CommandNameIsKey(data: seq<Command>, i: int)
    requires 0 <= i < |data| && data[i].rule != []
    ensures data[i].name in RankCommands(data)
    decreases |data|
  {
    var n := |data| - 1;
    var prefix := data[..n];
    if i < n {
      assert prefix[i] == data[i];
      CommandNameIsKey(prefix, i);
    }
  }

  /** De-duplicating a de-duplicated list followed by more elements de-duplicates the whole. */
  lemma {:induction false} DedupAppend(a: seq<string>, b: seq<string>)
    ensures Dedup(Dedup(a) + b) == Dedup(a + b)
    decreases |b|
  {
    if b == [] {
      assert Dedup(a) + b == Dedup(a);
      assert a + b == a;
      DedupSound(a);
      DedupOfDistinct(Dedup(a));
    } else {
      var n := |b| - 1;
      DedupAppend(a, b[..n]);
      assert Dedup(a) + b == (Dedup(a) + b[..n]) + [b[n]];
      assert a + b == (a + b[..n]) + [b[n]];
      DedupSnoc(Dedup(a) + b[..n], b[n]);
      DedupSnoc(a + b[..n], b[n]);
    }
  }

  /**
   * Everything the commands of `data` file under `key`, in order: the rule expressions of each
   * command with rules whose key, when its turn came, was `key`.
   */
  ghost function Filed(data: seq<Command>, key: string): seq<string>
    decreases |data|
  {
    if data == [] then []
    else
      var prefix := data[..|data| - 1];
      var c := data[|data| - 1];
      Filed(prefix, key) + (if c.rule != [] && KeyFor(RankCommands(prefix), c) == key then RuleRegs(c.rule) else [])
  }

  /** Nothing has been filed under a key the ranking does not hold. */
  lemma {:induction false} FiledAbsent(data: seq<Command>, key: string)
    requires key !in RankCommands(data)
    ensures Filed(data, key) == []
    decreases |data|
  {
    if data != [] {
      FiledAbsent(data[..|data| - 1], key);
    }
  }

  /**
   * The ranking of the whole loop: each key's list holds everything filed under it, each
   * expression once, in order of first occurrence.
   */
  lemma {:induction false} RankedOrder(data: seq<Command>, key: string)
    requires key in RankCommands(data)
    ensures Regs(RankCommands(data)[key]) == Dedup(Filed(data, key))
    decreases |data|
  {
    var prefix := data[..|data| - 1];
    var c := data[|data| - 1];
    var before := RankCommands(prefix);
    RankCommandsWellFormed(prefix);
    AddCommandEffect(before, c);
    if c.rule != [] && KeyFor(before, c) == key {
      if key in before {
        RankedOrder(prefix, key);
        DedupAppend(Filed(prefix, key), RuleRegs(c.rule));
      } else {
        FiledAbsent(prefix, key);
        assert [] + RuleRegs(c.rule) == RuleRegs(c.rule);
      }
    } else {
      assert RankCommands(data)[key] == before[key];
      assert Filed(data, key) == Filed(prefix, key) + [] == Filed(prefix, key);
      RankedOrder(prefix, key);
    }
  }

  /**
   * The lowest priority among the commands of `data` that filed `reg` under `key`, or `None`
   * when none did.
   */
  ghost function Lowest(data: seq<Command>, key: string, reg: string): Option<int>
    decreases |data|
  {
    if data == [] then None
    else
      var prefix := data[..|data| - 1];
      var c := data[|data| - 1];
      var prev := Lowest(prefix, key, reg);
      if c.rule != [] && KeyFor(RankCommands(prefix), c) == key && reg in RuleRegs(c.rule) then
        Some(if prev.Some? then Min(prev.value, c.priority) else c.priority)
      else prev
  }

  /** Some command filed `reg` under `key` exactly when it is among the expressions filed there. */
  lemma {:induction false} LowestFiled(data: seq<Command>, key: string, reg: string)
    ensures Lowest(data, key, reg).Some? <==> reg in Filed(data, key)
    decreases |data|
  {
    if data != [] {
      LowestFiled(data[..|data| - 1], key, reg);
    }
  }

  /** A command's rules repeat an expression exactly when it is one of their expressions. */
  lemma RepeatsAll(rule: seq<Rule>, reg: string)
    ensures Repeats(rule, |rule|, reg) <==> reg in RuleRegs(rule)
  {
    if reg in RuleRegs(rule) {
      var t :| 0 <= t < |rule| && RuleRegs(rule)[t] == reg;
      assert rule[t].reg == reg;
    }
  }

  /**
   * An entry a command's rules append to a repeat-free list holds one of the command's
   * expressions that the list lacked, with the command's priority.
   */
  lemma AppendedEntry(start: seq<Ranked>, rule: seq<Rule>, priority: int, j: int)
    requires Distinct(Regs(start)) && |start| <= j < |MergeFirst(start, rule, |rule|, priority)|
    ensures MergeFirst(start, rule, |rule|, priority)[j].reg !in Regs(start)
    ensures MergeFirst(start, rule, |rule|, priority)[j].reg in RuleRegs(rule)
    ensures MergeFirst(start, rule, |rule|, priority)[j].priority == priority
  {
    var m := MergeFirst(start, rule, |rule|, priority);
    MergeFirstNewPriority(start, rule, |rule|, priority, j);
    MergeFirstDistinct(start, rule, |rule|, priority);
    forall i | 0 <= i < |start| ensures m[i].reg == start[i].reg {
      MergeFirstEntry(start, rule, |rule|, priority, i);
    }
    MergeFirstOrder(start, rule, |rule|, priority);
    assert RuleRegs(rule)[..|rule|] == RuleRegs(rule);
    DedupSound(Regs(start) + RuleRegs(rule));
    assert Regs(m)[j] in Regs(start) + RuleRegs(rule);
  }

  /**
   * The priorities of the whole loop: each entry of a key's list carries the lowest priority
   * of the commands that filed its expression under that key.
   */
  lemma {:induction false} RankedPriority(data: seq<Command>, key: string, j: int)
    requires key in RankCommands(data) && 0 <= j < |RankCommands(data)[key]|
    ensures Lowest(data, key, RankCommands(data)[key][j].reg) == Some(RankCommands(data)[key][j].priority)
    decreases |data|
  {
    var prefix := data[..|data| - 1];
    var c := data[|data| - 1];
    var before := RankCommands(prefix);
    RankCommandsWellFormed(prefix);
    if c.rule != [] && KeyFor(before, c) == key {
      var start := if key in before then before[key] else [];
      var m := MergeFirst(start, c.rule, |c.rule|, c.priority);
      assert RankCommands(data)[key] == m;
      if j < |start| {
        MergeFirstEntry(start, c.rule, |c.rule|, c.priority, j);
        RankedPriority(prefix, key, j);
        RepeatsAll(c.rule, start[j].reg);
      } else {
        AppendedEntry(start, c.rule, c.priority, j);
        if key in before {
          RankedOrder(prefix, key);
          DedupSound(Filed(prefix, key));
        } else {
          FiledAbsent(prefix, key);
        }
        LowestFiled(prefix, key, m[j].reg);
      }
    } else {
      AddCommandEffect(before, c);
      assert RankCommands(data)[key] == before[key];
      RankedPriority(prefix, key, j);
    }
  }

  /** `other` is `data` with, at most, other priorities. */
  ghost predicate SameButPriorities(data: seq<Command>, other: seq<Command>)
  {
    |data| == |other| && forall i :: 0 <= i < |data| ==> other[i] == data[i].(priority := other[i].priority)
  }

  /** Priorities never decide which keys exist. */
  lemma {:induction false} KeysIgnorePriority(data: seq<Command>, other: seq<Command>)
    requires SameButPriorities(data, other)
    ensures RankCommands(data).Keys == RankCommands(other).Keys
    decreases |data|
  {
    if data != [] {
      var n := |data| - 1;
      assert SameButPriorities(data[..n], other[..n]);
      KeysIgnorePriority(data[..n], other[..n]);
    }
  }

  /** Priorities never decide what is filed under a key. */
  lemma {:induction false} FiledIgnoresPriority(data: seq<Command>, other: seq<Command>, key: string)
    requires SameButPriorities(data, other)
    ensures Filed(data, key) == Filed(other, key)
    decreases |data|
  {
    if data != [] {
      var n := |data| - 1;
      assert SameButPriorities(data[..n], other[..n]);
      FiledIgnoresPriority(data[..n], other[..n], key);
      KeysIgnorePriority(data[..n], other[..n]);
    }
  }

  /**
   * The priorities are compared but never observable once dropped: commands that differ only in
   * priority give the same keys and the same expressions under each.
   */
  lemma PriorityUnobservable(data: seq<Command>, other: seq<Command>)
    requires SameButPriorities(data, other)
    ensures RankCommands(data).Keys == RankCommands(other).Keys
    ensures forall key :: key in RankCommands(data) ==>
              Regs(RankCommands(data)[key]) == Regs(RankCommands(other)[key])
  {
    KeysIgnorePriority(data, other);
    forall key | key in RankCommands(data)
      ensures Regs(RankCommands(data)[key]) == Regs(RankCommands(other)[key])
    {
      RankedOrder(data, key);
      RankedOrder(other, key);
      FiledIgnoresPriority(data, other, key);
    }
  }

  /**
   * The body of the inner `forEach` for one rule: a known expression has its entry replaced in
   * place when the command's priority is strictly smaller; an unknown one is pushed.
   */
  method MergeRule(list: seq<Ranked>, reg: string, priority: int) returns (merged: seq<Ranked>)
    ensures merged == Merge(list, reg, priority)
  {
    merged := list;
    var existingRuleIndex := FindReg(merged, reg);
    if existingRuleIndex > -1 {
      if merged[existingRuleIndex].priority > priority {
        merged := merged[existingRuleIndex := Ranked(reg, priority)];
      }
    } else {
      merged := merged + [Ranked(reg, priority)];
    }
  }

  /** The ranking after the first `k` rules of a command filed under `key`, starting from `before`. */
  ghost function PartlyRanked(before: Ranking, key: string, rule: seq<Rule>, k: int, priority: int): Ranking
    requires 0 <= k <= |rule|
  {
    if k == 0 then before
    else before[key := MergeFirst(if key in before then before[key] else [], rule, k, priority)]
  }

  /**
   * One rule of the inner loop: after the key's list is created when missing, it holds the
   * first `k` rules merged, and merging the next rule into it gives the ranking after `k + 1`.
   */
  lemma RankStep(before: Ranking, key: string, rule: seq<Rule>, k: int, priority: int)
    requires 0 <= k < |rule|
    ensures var current := PartlyRanked(before, key, rule, k, priority);
      var created := if key in current then current else current[key := []];
      && created[key] == MergeFirst(if key in before then before[key] else [], rule, k, priority)
      && created[key := Merge(created[key], rule[k].reg, priority)] == PartlyRanked(before, key, rule, k + 1, priority)
  {
  }

  /**
   * The body of the outer `forEach` for one command: picks its key, then for each rule creates
   * the key's list when missing and merges the rule's expression into it in place.
   */
  method RankCommand(before: Ranking, c: Command) returns (commands: Ranking)
    ensures commands == AddCommand(before, c)
  {
    commands := before;
    var uniqueName := if c.name in commands then c.dir + " - " + c.name else c.name;
    var k := 0;
    while k < |c.rule|
      invariant 0 <= k <= |c.rule|
      invariant commands == PartlyRanked(before, uniqueName, c.rule, k, c.priority)
    {
      RankStep(before, uniqueName, c.rule, k, c.priority);
      if uniqueName !in commands {
        commands := commands[uniqueName := []];
      }
      var list := MergeRule(commands[uniqueName], c.rule[k].reg, c.priority);
      commands := commands[uniqueName := list];
      k := k + 1;
    }
  }

  /** The closing loop over the keys: each list of ranked expressions becomes the list of its expressions. */
  method DropPriorities(commands: Ranking) returns (out: map<string, seq<string>>)
    ensures out.Keys == commands.Keys
    ensures forall key :: key in out ==> |out[key]| == |commands[key]|
    ensures forall key, j :: key in out && 0 <= j < |out[key]| ==> out[key][j] == commands[key][j].reg
  {
    out := map[];
    var todo := commands.Keys;
    while todo != {}
      invariant todo <= commands.Keys
      invariant out.Keys == commands.Keys - todo
      invariant forall key :: key in out ==> out[key] == Regs(commands[key])
      decreases todo
    {
      var key :| key in todo;
      out := out[key := Regs(commands[key])];
      todo := todo - {key};
    }
  }

  /**
   * `formatCommand`: ranks the commands one by one, then drops the priorities. Every key comes
   * from a command with rules, every such command's name is a key, and every list is non-empty
   * and holds everything filed under its key, each expression once, in order of first occurrence.
   */
  method FormatCommandsList(data: seq<Command>) returns (commands: map<string, seq<string>>)
    ensures commands.Keys == RankCommands(data).Keys
    ensures forall key :: key in commands ==> commands[key] == Regs(RankCommands(data)[key])
    ensures forall key :: key in commands ==> commands[key] == Dedup(Filed(data, key))
    ensures forall key :: key in commands ==> commands[key] != [] && Distinct(commands[key])
    ensures forall key :: key in commands ==>
              exists i :: 0 <= i < |data| && data[i].rule != [] &&
                (key == data[i].name || key == data[i].dir + " - " + data[i].name)
    ensures forall i :: 0 <= i < |data| && data[i].rule != [] ==> data[i].name in commands
  {
    var ranked: Ranking := map[];
    var i := 0;
    while i < |data|
      invariant 0 <= i <= |data|
      invariant ranked == RankCommands(data[..i])
    {
      assert data[..i + 1][..i] == data[..i];
      ranked := RankCommand(ranked, data[i]);
      i := i + 1;
    }
    assert data[..i] == data;
    commands := DropPriorities(ranked);
    assert forall key :: key in commands ==> commands[key] == Regs(ranked[key]);
    RankCommandsWellFormed(data);
    forall key | key in commands {
      RankedKeyOrigin(data, key);
    }
    forall key | key in commands ensures commands[key] == Dedup(Filed(data, key)) {
      RankedOrder(data, key);
    }
    forall i | 0 <= i < |data| && data[i].rule != [] {
      CommandNameIsKey(data, i);
    }
  }
}
