/**
 * Model of tests/generator/terminal_rules/constant_terminal.cc: the constant
 * terminal ZERO and the test driver that drains it and compares the productions
 * with the expected list.
 */
module ConstantTerminal {
  import opened TerminalRules

  /** `ZERO::Get_String`'s list: the single spelling "zero". */
  function ZeroString(): (strings: seq<string>)
    ensures |strings| == 1 && strings[0] == "zero"
  {
    ["zero"]
  }

  /** The productions the test expects from ZERO under a budget of one. */
  function ExpectedResults(): (expected: seq<seq<string>>)
  {
    [ZeroString()]
  }

  /** Constructs a ZERO terminal: its `Get_String` yields `["zero"]` in every state. */
  method NewZero() returns (zero: TerminalRule)
    ensures fresh(zero)
    ensures zero.GetString() == ZeroString()
  {
    zero := new TerminalRule(ZeroString());
  }

  /**
   * The drain loop of the test: advance until `Check_For_String` fails, appending
   * each production. Under a budget of one it collects the one production if the
   * terminal was rewound, and nothing otherwise; the loop always stops.
   */
  method Drain(rule: TerminalRule) returns (results: seq<seq<string>>)
    requires rule.allowedLength == 1
    modifies rule`stringCount
    ensures results == if old(rule.stringCount) == 0 then [rule.GetString()] else []
    ensures rule.stringCount == if old(rule.stringCount) == 0 then 1 else old(rule.stringCount)
  {
    results := [];
    var more := rule.CheckForString();
    while more
      invariant rule.allowedLength == 1
      invariant more ==> old(rule.stringCount) == 0 && rule.stringCount == 1 && results == []
      invariant !more ==> results == (if old(rule.stringCount) == 0 then [rule.GetString()] else [])
      invariant !more ==> rule.stringCount == if old(rule.stringCount) == 0 then 1 else old(rule.stringCount)
      decreases if more then 1 else 0
    {
      results := results + [rule.GetString()];
      more := rule.CheckForString();
    }
  }

  /**
   * `main`: initialises ZERO with a budget of one, drains it and exits with 0 exactly
   * when the drained list equals the expected one, which it does.
   */
  method ConstantTerminalTest() returns (results: seq<seq<string>>, exitCode: int)
    ensures results == [ZeroString()]
    ensures exitCode == (if results == ExpectedResults() then 0 else 1)
    ensures exitCode == 0
  {
    var start := NewZero();
    start.Initialize(1);
    results := Drain(start);
    var error := results != ExpectedResults();
    exitCode := if error then 1 else 0;
  }

  /**
   * Rewinding with `Reset_String` keeps the budget of the last `Initialize`, so a
   * second drain of ZERO yields the same productions as the first, and so does a
   * drain of a clone initialised alike.
   */
  method ReplayAfterReset() returns (first: seq<seq<string>>, second: seq<seq<string>>, cloned: seq<seq<string>>)
    ensures first == ExpectedResults()
    ensures second == first && cloned == first
  {
    var start := NewZero();
    start.Initialize(1);
    first := Drain(start);
    start.ResetString();
    second := Drain(start);
    var copy := start.Clone();
    copy.Initialize(1);
    cloned := Drain(copy);
  }
}
