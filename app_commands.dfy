/**
 * The `formatCommand` helper of the `/GetAppCommands` route: it groups the plugins' command
 * rules by plugin directory and command name, and gives every rule an example string.
 */
module AppCommands {

  /** A rule of a command: its regular expression as a string. */
  datatype Rule = Rule(reg: string)

  /** A command as the plugin list describes it; `dir` is its `file.dir`. */
  datatype Command = Command(dir: string, name: string, rule: seq<Rule>, priority: int)

  /** One rule as the route reports it. */
  datatype Instruction = Instruction(reg: string, example: string)

  type Instructions = map<string, map<string, seq<Instruction>>>

  /** `s` with every character of `drop` removed; `String.prototype.replace` with a global pattern. */
  function Without(s: string, drop: set<char>): (r: string)
    ensures |r| <= |s|
    ensures forall c :: c in r <==> c in s && c !in drop
    decreases |s|
  {
    if s == [] then []
    else (if s[0] in drop then [] else [s[0]]) + Without(s[1..], drop)
  }

  /** The example of a rule: its `reg` with every `/` removed, then every `^` and `$`. */
  function Example(reg: string): (r: string)
    ensures forall c :: c in r <==> c in reg && c !in {'/', '^', '$'}
  {
    Without(Without(reg, {'/'}), {'^', '$'})
  }

  /** Removing two sets of characters one after the other is removing their union in one pass. */
  lemma {:induction false} WithoutTwice(s: string, a: set<char>, b: set<char>)
    ensures Without(Without(s, a), b) == Without(s, a + b)
    decreases |s|
  {
    if s != [] {
      WithoutTwice(s[1..], a, b);
      WithoutConcat(if s[0] in a then [] else [s[0]], Without(s[1..], a), b);
      if s[0] !in a {
        assert [s[0]][1..] == [];
      }
    }
  }

  /** Removal distributes over concatenation. */
  lemma {:induction false} WithoutConcat(s: string, t: string, drop: set<char>)
    ensures Without(s + t, drop) == Without(s, drop) + Without(t, drop)
    decreases |s|
  {
    if s == [] {
      assert s + t == t;
    } else {
      assert (s + t)[0] == s[0] && (s + t)[1..] == s[1..] + t;
      WithoutConcat(s[1..], t, drop);
    }
  }

  /** A string none of whose characters is dropped comes back unchanged. */
  lemma {:induction false} WithoutNothing(s: string, drop: set<char>)
    requires forall i :: 0 <= i < |s| ==> s[i] !in drop
    ensures Without(s, drop) == s
    decreases |s|
  {
    if s != [] {
      WithoutNothing(s[1..], drop);
    }
  }

  /** Every occurrence of a kept character survives the removal, and none of a dropped one. */
  lemma {:induction false} WithoutCounts(s: string, drop: set<char>, c: char)
    ensures multiset(Without(s, drop))[c] == if c in drop then 0 else multiset(s)[c]
    decreases |s|
  {
    if s != [] {
      WithoutCounts(s[1..], drop, c);
      assert s == [s[0]] + s[1..];
    }
  }

  /** The example is the rule with `/`, `^` and `$` stripped in a single pass. */
  lemma ExampleOnePass(reg: string)
    ensures Example(reg) == Without(reg, {'/', '^', '$'})
  {
    WithoutTwice(reg, {'/'}, {'^', '$'});
    assert {'/'} + {'^', '$'} == {'/', '^', '$'};
  }

  /** A rule without `/`, `^` and `$` is its own example. */
  lemma ExampleOfPlainRule(reg: string)
    requires forall i :: 0 <= i < |reg| ==> reg[i] != '/' && reg[i] != '^' && reg[i] != '$'
    ensures Example(reg) == reg
  {
    WithoutNothing(reg, {'/'});
    WithoutNothing(reg, {'^', '$'});
  }

  /** `rule.map(r => ({ reg: r.reg, example: ... }))`: one instruction per rule, in rule order. */
  function ToInstructions(rule: seq<Rule>): (r: seq<Instruction>)
    ensures |r| == |rule|
    ensures forall k :: 0 <= k < |rule| ==> r[k].reg == rule[k].reg && r[k].example == Example(rule[k].reg)
  {
    seq(|rule|, k requires 0 <= k < |rule| => Instruction(rule[k].reg, Example(rule[k].reg)))
  }

  /** One step of the loop: ensure the directory's group exists, then (over)write the command's entry. */
  function AddAppCommand(inst: Instructions, c: Command): Instructions
  {
    var group := if c.dir in inst then inst[c.dir] else map[];
    inst[c.dir := group[c.name := ToInstructions(c.rule)]]
  }

  /** The result of the loop over the first commands of `data`. */
  function GroupCommands(data: seq<Command>): Instructions
    decreases |data|
  {
    if data == [] then map[] else AddAppCommand(GroupCommands(data[..|data| - 1]), data[|data| - 1])
  }

  /** No later command of `data` has the same directory and name as command `i`. */
  ghost predicate LastOfItsName(data: seq<Command>, i: int)
    requires 0 <= i < |data|
  {
    forall j :: i < j < |data| ==> !(data[j].dir == data[i].dir && data[j].name == data[i].name)
  }

  /** A directory is a key exactly when some command lives in it. */
  lemma {:induction false} GroupedDirectory(data: seq<Command>, dir: string)
    ensures dir in GroupCommands(data) <==> exists i :: 0 <= i < |data| && data[i].dir == dir
    decreases |data|
  {
    if data != [] {
      var n := |data| - 1;
      var prefix := data[..n];
      GroupedDirectory(prefix, dir);
      if dir != data[n].dir {
        if exists i :: 0 <= i < |data| && data[i].dir == dir {
          var i :| 0 <= i < |data| && data[i].dir == dir;
          assert prefix[i].dir == dir;
        }
        if exists i :: 0 <= i < n && prefix[i].dir == dir {
          var i :| 0 <= i < n && prefix[i].dir == dir;
          assert data[i].dir == dir;
        }
      } else {
        assert data[n].dir == dir;
      }
    }
  }

  /** A name is a key under a directory exactly when some command of that directory has it. */
  lemma {:induction false} GroupedName(data: seq<Command>, dir: string, name: string)
    ensures (dir in GroupCommands(data) && name in GroupCommands(data)[dir]) <==>
            exists i :: 0 <= i < |data| && data[i].dir == dir && data[i].name == name
    decreases |data|
  {
    if data != [] {
      var n := |data| - 1;
      var prefix := data[..n];
      GroupedName(prefix, dir, name);
      if dir != data[n].dir || name != data[n].name {
        if exists i :: 0 <= i < |data| && data[i].dir == dir && data[i].name == name {
          var i :| 0 <= i < |data| && data[i].dir == dir && data[i].name == name;
          assert prefix[i].dir == dir && prefix[i].name == name;
        }
        if exists i :: 0 <= i < n && prefix[i].dir == dir && prefix[i].name == name {
          var i :| 0 <= i < n && prefix[i].dir == dir && prefix[i].name == name;
          assert data[i].dir == dir && data[i].name == name;
        }
      } else {
        assert data[n].dir == dir && data[n].name == name;
      }
    }
  }

  /** Under a directory and name sit the instructions of the last command with both; earlier ones are overwritten. */
  lemma {:induction false} GroupedLast(data: seq<Command>, i: int)
    requires 0 <= i < |data| && LastOfItsName(data, i)
    ensures data[i].dir in GroupCommands(data) && data[i].name in GroupCommands(data)[data[i].dir]
    ensures GroupCommands(data)[data[i].dir][data[i].name] == ToInstructions(data[i].rule)
    decreases |data|
  {
    var n := |data| - 1;
    if i < n {
      var prefix := data[..n];
      assert prefix[i] == data[i];
      assert LastOfItsName(prefix, i) by {
        forall j | i < j < n ensures !(prefix[j].dir == prefix[i].dir && prefix[j].name == prefix[i].name) {
          assert prefix[j] == data[j];
        }
      }
      GroupedLast(prefix, i);
      assert !(data[n].dir == data[i].dir && data[n].name == data[i].name);
    }
  }

  /**
   * The loop of `formatCommand`: for each command, creates its directory's group when missing and
   * sets the command's entry to its rules' instructions.
   */
  method FormatAppCommands(data: seq<Command>) returns (instructions: Instructions)
    ensures instructions == GroupCommands(data)
    ensures forall dir :: dir in instructions <==> exists i :: 0 <= i < |data| && data[i].dir == dir
    ensures forall dir, name :: (dir in instructions && name in instructions[dir]) <==>
              exists i :: 0 <= i < |data| && data[i].dir == dir && data[i].name == name
    ensures forall i :: 0 <= i < |data| && LastOfItsName(data, i) ==>
              data[i].dir in instructions && data[i].name in instructions[data[i].dir] &&
              instructions[data[i].dir][data[i].name] == ToInstructions(data[i].rule)
  {
    instructions := map[];
    var i := 0;
    while i < |data|
      invariant 0 <= i <= |data|
      invariant instructions == GroupCommands(data[..i])
    {
      var command := data[i];
      if command.dir !in instructions {
        instructions := instructions[command.dir := map[]];
      }
      instructions := instructions[command.dir := instructions[command.dir][command.name := ToInstructions(command.rule)]];
      assert data[..i + 1][..i] == data[..i];
      i := i + 1;
    }
    assert data[..i] == data;
    forall dir {
      GroupedDirectory(data, dir);
    }
    forall dir, name {
      GroupedName(data, dir, name);
    }
    forall i | 0 <= i < |data| && LastOfItsName(data, i) {
      GroupedLast(data, i);
    }
  }
}
