/**
 * Model of `Terminal_Rule` (generator/rule/terminal_rule.h): a leaf of the grammar
 * whose enumeration state is the counter `m_string_count`. The header is all that is
 * modelled of the class; its out-of-line bodies are not part of this model, so the
 * contracts below fix only what the header's signatures and the ZERO test pin down.
 */
module TerminalRules {

  class TerminalRule {
    /**
     * The fixed production of the concrete terminal: what its `Get_String` returns.
     * A subclass such as ZERO supplies it; here it is a constant of the object.
     */
    const production: seq<string>
    /** The length budget given by the last `Initialize` (kept by the `Rule` base). */
    var allowedLength: nat
    /** `m_string_count`: how many productions this terminal has yielded so far. */
    var stringCount: nat

    /**
     * The protected constructor, reached through a concrete terminal's. The cursor
     * is left open: it is fixed only by `Initialize`.
     */
    constructor (production: seq<string>)
      ensures this.production == production
    {
      this.production := production;
      var budget: nat :| true;
      var count: nat :| true;
      allowedLength := budget;
      stringCount := count;
    }

    /**
     * `Initialize(in_allowed_length, in_previous_rule = NULL)`: records the budget
     * and rewinds the cursor. The previous rule gives context only to composite
     * rules; a terminal does not use it.
     */
    method Initialize(allowedLength: nat, previous: TerminalRule? := null)
      modifies this`allowedLength, this`stringCount
      ensures this.allowedLength == allowedLength
      ensures stringCount == 0
    {
      this.allowedLength := allowedLength;
      stringCount := 0;
    }

    /** `Reset_String()`: rewinds the cursor and keeps the budget of the last `Initialize`. */
    method ResetString()
      modifies this`stringCount
      ensures stringCount == 0
    {
      stringCount := 0;
    }

    /**
     * `Check_For_String()`: advances to the next production and says whether there
     * is one. Within a budget of one, a terminal has exactly one production: the
     * first call after a rewind finds it, every later call finds nothing. For other
     * budgets the outcome is left open.
     */
    method CheckForString() returns (found: bool)
      modifies this`stringCount
      ensures allowedLength == 1 ==> found == (old(stringCount) == 0)
      ensures allowedLength == 1 ==> stringCount == if found then 1 else old(stringCount)
    {
      if allowedLength == 1 {
        found := stringCount == 0;
        if found {
          stringCount := 1;
        }
      } else {
        var advanced: bool :| true;
        var count: nat :| true;
        found := advanced;
        stringCount := count;
      }
    }

    /** `Get_String() const`: the production, which reads none of the mutable state. */
    function GetString(): (strings: seq<string>)
      ensures strings == production
    {
      production
    }

    /** `Get_Terminals() const`: the leaves of this subtree, left to right: the terminal alone. */
    function GetTerminals(): (terminals: seq<TerminalRule>)
      ensures |terminals| == 1 && terminals[0] == this
    {
      [this]
    }

    /**
     * `operator[](in_index) const`: the leaf at a position of `GetTerminals()`; an
     * index out of range is a contract violation.
     */
    function At(index: nat): (leaf: TerminalRule)
      requires index < |GetTerminals()|
      ensures leaf == GetTerminals()[index]
    {
      this
    }

    /**
     * `Clone() const`: a new terminal built by the copy constructor, with the same
     * production; the copy's cursor is left open and the original is unchanged.
     */
    method Clone() returns (copy: TerminalRule)
      ensures fresh(copy)
      ensures copy.GetString() == GetString()
    {
      copy := new TerminalRule(production);
    }
  }
}
