# yagg: finite functions, block ids and the terminal enumeration protocol

This project models and proves three small parts of yagg.

- **`function<K, V>`** (`model/basic_types/function.h`) is a finite map built on `std::map`. It adds a lookup that is fatal outside the domain, projections onto the keys (`domain()`) and onto the values (`range()`), and `range_restrict`, which erases in place every mapping whose value is not permitted. Module `FiniteFunctions` models it as a class `FiniteFunction` with a `map` field. The lookup is a function. `domain()` and `range()` are read-only methods with the source's loops. `range_restrict` is a module-level method (a friend function in the source). It is proved equal to the pure function `RangeRestricted`, and the source's promises are proved about that function.
- **Block ids** (`model/rbd/block.cc`). Every `Block` gets an id from three statics: the counter `max_allocated`, a pool `reclaimed_ids` of ids that can be reused, and a reference-count table `references`. Module `Blocks` turns the statics into the fields of an explicit `BlockRegistry`, with a NULL table as `None`. `Block()`, `Block(const Block&)` and `~Block()` become the constructor, the `Copy` constructor and the `Destroy` method of class `Block`. The registry also keeps a ghost set of the live blocks: those constructed on it and not yet destroyed. `Destroy` requires its block to be live and removes it, so each block is destroyed at most once, as a C++ object is. `Valid()` is the registry invariant the three of them keep. Both tables exist together. Every issued id is below the counter. The count of every id equals the number of live blocks holding it. No id in the pool is still counted. From this invariant, the constructor proves that no block alive before it holds the new id.
- **The terminal enumeration protocol** (`generator/rule/terminal_rule.h`), plus the constant terminal `ZERO` and its test driver (`tests/generator/terminal_rules/constant_terminal.cc`). Module `TerminalRules` has a class `TerminalRule` with the budget of the last `Initialize` and the counter `m_string_count`. `Check_For_String` may modify only the counter. The `const` members `Get_String`, `Get_Terminals` and `operator[]` are functions, so they cannot change state. `Get_String` reads no mutable field at all. Module `ConstantTerminal` builds ZERO, drains it with the test's loop and proves that the test's comparison succeeds: exit code 0 with productions `[["zero"]]`.

Differences from the source's form:
- This model uses no inheritance, so the pure virtual `Get_String` becomes a constant field `production` of the terminal. `NewZero`, which stands for ZERO's implicit constructor, sets it to `ZeroString()`.
- The source's statics are process-wide globals. Here they are one explicit registry object, shared by every block that refers to it.
- `Terminal_Rule`'s out-of-line bodies (its .cc file) are not part of this model. Where neither the header nor the ZERO test fixes a behaviour, the model leaves it open: the body chooses nondeterministically and the contract says nothing. The exceptions are the assumptions listed under "## Left out".
- `Clone` goes through a copy constructor whose body is not shown, so the copy's cursor is left open. The model does not assume that a clone starts rewound.
- ZERO's `Get_String` checks nothing and answers in every state, so `GetString` has no precondition. Reading a production before a successful advance is therefore allowed.
- A terminal is a leaf, so its only leaf is itself: `GetTerminals` is the one-element list of the terminal, and `At` (`operator[]`) indexes that list. The bodies of these two calls are not shown.

## Model

| member | source | states |
|---|---|---|
| `FiniteFunctions.FiniteFunction.constructor` | examples/fault_trees_constrained/user_code/src/model/basic_types/function.h:15-17 | a new function is empty |
| `FiniteFunctions.FiniteFunction.Apply` | examples/fault_trees_constrained/user_code/src/model/basic_types/function.h:41-49 | applying outside the domain is a contract violation (required away); inside it, the result is the value mapped to the argument, and so is a member of the range |
| `FiniteFunctions.FiniteFunction.Domain` | examples/fault_trees_constrained/user_code/src/model/basic_types/function.h:51-62 | the set built by the loop is exactly the set of keys |
| `FiniteFunctions.FiniteFunction.Range` | examples/fault_trees_constrained/user_code/src/model/basic_types/function.h:64-75 | the set built by the loop is exactly the set of values |
| `FiniteFunctions.RangeRestricted` | examples/fault_trees_constrained/user_code/src/model/basic_types/function.h:32-38 | what is left after restriction: every remaining value is permitted; every remaining entry is an old entry with the same value; every old entry with a permitted value remains; the domain only shrinks |
| `FiniteFunctions.RangeRestrict` | examples/fault_trees_constrained/user_code/src/model/basic_types/function.h:26-38 | erasing in place while walking the mappings leaves exactly `RangeRestricted(old entries, permitted)` |
| `FiniteFunctions.RangeRestrictedRange` | examples/fault_trees_constrained/user_code/src/model/basic_types/function.h:26-38 | after restriction, the range is the old range intersected with the permitted set |
| `FiniteFunctions.RangeRestrictedIdempotent` | examples/fault_trees_constrained/user_code/src/model/basic_types/function.h:26-38 | restricting twice by the same set equals restricting once |
| `Blocks.Smallest` | examples/reliability_block_diagrams/user_code/src/model/rbd/block.cc:41-42 | the id taken from a non-empty pool is in the pool and no larger than any other pooled id |
| `Blocks.BlockRegistry.constructor` | examples/reliability_block_diagrams/user_code/src/model/rbd/block.cc:7-9 | initially the counter is 0, both tables are NULL and no block is live; this state is valid |
| `Blocks.BlockRegistry.IncreaseReferenceCount` | examples/reliability_block_diagrams/user_code/src/model/rbd/block.cc:45 | one more reference to the id in the table; a missing entry counts as 0 (assumed body, see Left out) |
| `Blocks.BlockRegistry.DecreaseReferenceCount` | examples/reliability_block_diagrams/user_code/src/model/rbd/block.cc:61 | one reference fewer; the last one erases the entry and puts the id in the pool (assumed body, see Left out) |
| `Blocks.Block.constructor` | examples/reliability_block_diagrams/user_code/src/model/rbd/block.cc:25-46 | absent tables are first created empty (the table is empty and allocated afterwards); with an empty pool the id is the counter, which goes up by exactly one; otherwise the id is the pool's smallest, which leaves the pool, and the counter is unchanged; the id is not in the pool afterwards; no block alive before holds it; its count is 1; the new block joins the live blocks; the registry stays valid |
| `Blocks.Block.Copy` | examples/reliability_block_diagrams/user_code/src/model/rbd/block.cc:50-55 | the source must be live; the copy has its source's id and registry; that id's count goes up by one; the copy joins the live blocks; counter and pool unchanged; the registry stays valid |
| `Blocks.Block.Destroy` | examples/reliability_block_diagrams/user_code/src/model/rbd/block.cc:59-73 | the block must be live, and leaves the live blocks, so it is destroyed once; one reference fewer for the id; when the table becomes empty both tables are released to NULL; otherwise they hold the decreased table and pool; the counter never decreases; the registry stays valid |
| `Blocks.ReclaimScenario` | examples/reliability_block_diagrams/user_code/src/model/rbd/block.cc:25-73 | releasing the only live block releases the pool, so the next block draws a fresh id from the counter; with another block still live, the released id is reused; the counter only grows |
| `Blocks.CopyScenario` | examples/reliability_block_diagrams/user_code/src/model/rbd/block.cc:50-73 | a copy has its original's id; destroying the original while the copy is live keeps the id counted, so a block constructed afterwards gets a different id |
| `TerminalRules.TerminalRule.constructor` | lib/yagg/input_generator_code/src/generator/rule/terminal_rule.h:29 | a terminal carries its concrete class's fixed production; the cursor is open until `Initialize` |
| `TerminalRules.TerminalRule.Initialize` | lib/yagg/input_generator_code/src/generator/rule/terminal_rule.h:18 | records the allowed length and rewinds the counter; the previous rule defaults to none |
| `TerminalRules.TerminalRule.ResetString` | lib/yagg/input_generator_code/src/generator/rule/terminal_rule.h:19 | rewinds the counter and may not touch the allowed length, so the budget of the last `Initialize` is kept |
| `TerminalRules.TerminalRule.CheckForString` | lib/yagg/input_generator_code/src/generator/rule/terminal_rule.h:21 | the one non-const advancing call, changing only the counter; within a budget of one it succeeds exactly when the terminal was rewound and then never again |
| `TerminalRules.TerminalRule.GetString` | lib/yagg/input_generator_code/src/generator/rule/terminal_rule.h:22 | a const read: it has no reads clause, so it reads no mutable field, and it equals the terminal's fixed production |
| `TerminalRules.TerminalRule.GetTerminals` | lib/yagg/input_generator_code/src/generator/rule/terminal_rule.h:24 | a const read: the leaves of a terminal are the terminal alone |
| `TerminalRules.TerminalRule.At` | lib/yagg/input_generator_code/src/generator/rule/terminal_rule.h:26 | a const read agreeing with indexing `GetTerminals()`; an index out of range is required away |
| `TerminalRules.TerminalRule.Clone` | lib/yagg/input_generator_code/src/generator/rule/terminal_rule.h:14 | a const call returning a fresh terminal with the same `Get_String` result |
| `ConstantTerminal.ZeroString` | lib/yagg/input_generator_code/src/tests/generator/terminal_rules/constant_terminal.cc:17-22 | ZERO's `Get_String` list has exactly one element, the string "zero" |
| `ConstantTerminal.NewZero` | lib/yagg/input_generator_code/src/tests/generator/terminal_rules/constant_terminal.cc:12-23 | ZERO's `Get_String` is `["zero"]`, whatever its state |
| `ConstantTerminal.Drain` | lib/yagg/input_generator_code/src/tests/generator/terminal_rules/constant_terminal.cc:36-39 | the loop stops; within a budget of one it collects the one production if the terminal was rewound, and nothing otherwise |
| `ConstantTerminal.ConstantTerminalTest` | lib/yagg/input_generator_code/src/tests/generator/terminal_rules/constant_terminal.cc:27-87 | exits 0 exactly when the drained list equals the expected one; after `Initialize(1)` the drain yields exactly `[["zero"]]`, so the exit code is 0 |
| `ConstantTerminal.ReplayAfterReset` | lib/yagg/input_generator_code/src/generator/rule/terminal_rule.h:14-21 | draining ZERO, rewinding it with `Reset_String` and draining again repeats `[["zero"]]`; a clone initialised the same way drains the same list |

## Left out

- `operator<<` of `function` and of `Block`, and all printing in the test driver: these are only stream formatting and output.
- The `Rule` base class, the rule list, the composite rules (sequence, choice, repetition) and `Utility::to_string` are not part of this model.
- `Blocks.BlockRegistry.IncreaseReferenceCount`: its body is in block.h, which is not part of this model. It is assumed to increment the id's entry, creating it at 0 as `std::map::operator[]` does.
- `Blocks.BlockRegistry.DecreaseReferenceCount`: its body is in block.h, which is not part of this model. It is assumed to decrement the entry and, at zero, to erase it and put the id into `reclaimed_ids`. block.cc itself never inserts into the pool, so every claim about reuse rests on this assumption. The entry must be erased at zero for the table ever to become empty in `~Block`.
- `Blocks.Block.constructor`: `max_allocated` is an `unsigned long` and would wrap to 0 after 2^N allocations, N being the width of `unsigned long` (at least 32, and 64 on LP64 platforms). The model counts with unbounded naturals, so its "fresh id" and "counter never decreases" claims hold only up to that wrap.
- `Blocks.Block.Destroy`: the set of live blocks is ghost bookkeeping that the source does not have. C++ destroys each object exactly once, and the model states that as `Destroy`'s precondition. Nothing in the model stops a Dafny caller from using a block object after destroying it, other than that precondition.
- `TerminalRules.TerminalRule.CheckForString`: for allowed lengths other than 1, both the result and the new counter are left open (chosen nondeterministically), because the class's .cc is not part of this model. Under a budget of one the counter values are assumed: 1 after the success, and unchanged after a failure. So is the fact that every call after the first failure also returns false. The test stops at the first false, so it fixes neither. The counter is also modelled as unbounded, not as `unsigned int`.
- `TerminalRules.TerminalRule.ResetString`: the rewind is assumed from the method's name, because `Terminal_Rule`'s .cc is not shown and the test never calls it. It sets the counter back to 0, so under a budget of one the terminal yields its production again. `ConstantTerminal.ReplayAfterReset` rests on this assumption.
- `TerminalRules.TerminalRule.constructor`: the starting budget and counter are left open, because `Terminal_Rule()` has no visible body.
- `TerminalRules.TerminalRule.Clone`: the copy's budget and counter are left open, because `Terminal_Rule(const Terminal_Rule&)` has no visible body.
- `TerminalRules.TerminalRule.Initialize`: setting the counter to 0 is assumed. The test fixes only that the first `Check_For_String` after `Initialize(1)` succeeds. Reporting an infeasible budget is left out, because the header returns `void` and no body shows such a report. The previous-rule argument is accepted and not used. It is typed as a terminal, while the source takes any `const Rule*`, because the `Rule` base class is not modelled.
- `ConstantTerminal.Drain`: requires a budget of one, the only budget the test uses and the only one whose behaviour is fixed.
- `FiniteFunctions.RangeRestrict`, `FiniteFunctions.FiniteFunction.Domain`, `FiniteFunctions.FiniteFunction.Range`: they visit keys in an arbitrary order instead of `std::map`'s key order. None of the three results depends on that order.
- The other operations `function` inherits from `std::map` (insert, erase, `operator[]`) are not modelled separately. The `entries` field stands for the map's whole contents.
- Raw `new`/`delete` of the two tables, and virtual dispatch, become the explicit `None`/`Some` state and a constant field.
