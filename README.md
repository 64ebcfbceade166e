# py-logic in Dafny

py-logic reads a propositional formula such as `!A & (B -> C) <-> D` and prints its
truth table. The core is three stages:

- **Lexer**: turns the text into tokens that end in `Eof`. `->` and `<->` need lookahead.
- **Parser**: a recursive-descent parser over a position cursor. It builds a tree of
  `Var`, `Not`, `And`, `Or`, `Implies` and `Biconditional` nodes.
  - Precedence, from tightest to loosest: `!`, `&`, `|`, `->`, `<->`.
  - `&`, `|` and `<->` associate to the left; `->` associates to the right.
- **Evaluator and truth-table generator**:
  - evaluates a tree under an assignment of truth values;
  - collects and sorts the variable names;
  - enumerates all 2^n assignments, all-true first and all-false last.

This project models those stages and proves their properties.

Files and modules:

- `results.dfy` (`Results`): `Option` and `Result`. The Python code raises an exception on every error; the model returns a `Result` value instead.
- `lexer.dfy` (`Lexing`):
  - the `Lexer` class: a fixed input, a `position` field, `Peek`, `Advance` and the scanning loop `Lex`;
  - the recursive reference function `LexFrom`, which the loop is proved against;
  - lemmas for each branch of the scan.
- `parser.dfy` (`Parsing`):
  - the expression datatype;
  - one reference function per precedence level (`PrimaryAt`, `NotAt`, `AndAt`, `OrAt`, `ImpliesAt`, `BiconditionalAt`);
  - the `Parser` class, whose methods advance `position` and are proved to agree with those functions.
- `parser_properties.dfy` (`ParserProperties`):
  - round trip: a fully parenthesised rendering of any tree parses back to that tree;
  - associativity and precedence;
  - rejection of malformed token lists.
- `evaluator.dfy` (`Evaluation`):
  - the evaluator, with Python's short-circuit order;
  - a reference semantics `Truth`;
  - variable extraction and sorting.
- `truth_table.dfy` (`TruthTable`):
  - the recursive enumeration of assignments, its count, coverage, order and distinctness;
  - the `TruthTableGenerator` class;
  - the header and separator length arithmetic.

## Model

| member | source | states |
|---|---|---|
| Lexing.Lexer.constructor | lexer.py:24-26 | A new lexer holds the input and starts at position 0 |
| Lexing.Lexer.Peek | lexer.py:28-31 | The character `offset` places ahead of the cursor; nothing exactly when that is past the end of the input |
| Lexing.Lexer.Advance | lexer.py:33-34 | Moves the cursor forward by `count` and changes nothing else |
| Lexing.Lexer.Lex | lexer.py:36-84 | The scanning loop gives the same tokens or error as the recursive reference scan from the starting position; on success the cursor has reached the end of the input |
| Lexing.LexWellFormed | lexer.py:36-84 | A successful scan ends with exactly one `Eof` token and no earlier token is `Eof`; every other token carries a lexeme, a variable's being one upper-case letter; there are at most as many non-`Eof` tokens as input characters |
| Lexing.SkipWhitespace | lexer.py:41-42 | A run of whitespace produces no tokens: scanning from before it equals scanning from after it |
| Lexing.LexPunctuation | lexer.py:43-57 | Each of the five one-character operators and parentheses (`(`, `)`, `!`, `&`, and the vertical bar for or) yields one token of its kind with the character as lexeme, and scanning resumes one character later |
| Lexing.LexArrow | lexer.py:58-65 | `-` followed by `>` yields one implication token `->`, and scanning resumes two characters later; a `-` not followed by `>` is an "expected `->`" error at the `-` |
| Lexing.LexDoubleArrow | lexer.py:66-73 | `<->` yields one biconditional token, and scanning resumes three characters later; any other `<` is an "expected `<->`" error at the `<` |
| Lexing.LexVariable | lexer.py:74-76 | An upper-case letter yields one variable token whose lexeme is that letter |
| Lexing.LexUnexpected | lexer.py:77-80 | Any other character is an "unexpected character" error that carries the character and its zero-based position |
| Lexing.LexTwoLetters | lexer.py:74-76 | `"AB"` lexes to two variable tokens and `Eof` |
| Lexing.LexDanglingDash | lexer.py:58-65 | `"A -"` is an "expected `->`" error at position 2, where the input ends after the `-` |
| Lexing.TokenPrefixWellFormed | lexer.py:43-76 | Putting a non-`Eof` token with a lexeme in front of a well-formed token list keeps it well formed |
| Parsing.PrimaryAt | parser.py:61-76 | A primary either fails or stops at a position past where it started and not past the end |
| Parsing.NotAt | parser.py:78-82 | The `!` level makes progress in the same sense |
| Parsing.AndAt | parser.py:84-90 | The `&` level makes progress in the same sense |
| Parsing.AndTail | parser.py:86-89 | The `&` loop never moves the cursor backwards |
| Parsing.OrAt | parser.py:92-98 | The or level makes progress in the same sense |
| Parsing.OrTail | parser.py:94-97 | The or loop never moves the cursor backwards |
| Parsing.ImpliesAt | parser.py:100-106 | The `->` level makes progress in the same sense |
| Parsing.BiconditionalAt | parser.py:108-114 | The `<->` level makes progress in the same sense |
| Parsing.BiconditionalTail | parser.py:110-113 | The `<->` loop never moves the cursor backwards |
| Parsing.StaysInBounds | parser.py:56-59 | On a token list that ends in `Eof`, a successful parse stops at an index inside the list, because `Eof` is never consumed |
| Parsing.LexedTokens | lexer.py:36-84 | The tokens of a successful scan meet what the parser assumes: each variable token is named by one character, and the list ends in `Eof` |
| Parsing.Parser.constructor | parser.py:44-46 | A new parser holds the tokens and starts at position 0 |
| Parsing.Parser.Consume | parser.py:48-54 | When the next token has the expected kind, the cursor advances by exactly one; otherwise the result is an "expected X, found Y" error and the cursor does not move |
| Parsing.Parser.Peek | parser.py:56-59 | The token at the cursor, or an `Eof` token past the end |
| Parsing.Parser.ParsePrimary | parser.py:61-76 | Same tree, error and final cursor as `PrimaryAt`: a variable, a parenthesised formula that must be closed by `)`, or an "expected primary" error |
| Parsing.Parser.ParseNot | parser.py:78-82 | Same result and final cursor as `NotAt` |
| Parsing.Parser.ParseAnd | parser.py:84-90 | The loop that reassigns `left` gives the same result and final cursor as the left fold `AndAt` |
| Parsing.Parser.ParseOr | parser.py:92-98 | The loop gives the same result and final cursor as the left fold `OrAt` |
| Parsing.Parser.ParseImplies | parser.py:100-106 | Same result and final cursor as the right-recursive `ImpliesAt` |
| Parsing.Parser.ParseBiconditional | parser.py:108-114 | The loop gives the same result and final cursor as the left fold `BiconditionalAt` |
| Parsing.Parser.Parse | parser.py:116-120 | Same result as `ParseFrom`: the formula when it is followed by `Eof`, otherwise an error |
| ParserProperties.RenderShape | parser.py:61-72 | The fully parenthesised rendering of a tree is non-empty, contains no `Eof`, and starts with a token that can begin a primary or a negation |
| ParserProperties.RenderBinaryShape | parser.py:68-72 | A binary node renders as `(`, left side, operator, right side, `)` |
| ParserProperties.ParseRendered | parser.py:61-82 | Wherever the rendering of a tree appears, the `!` level reads back exactly that tree and stops right after it |
| ParserProperties.ParseInsideParentheses | parser.py:68-72 | A parenthesised binary node re-enters at the `<->` level and reads back the same node |
| ParserProperties.Parenthesised | parser.py:68-72 | `(` + formula + `)` at the `!` level yields the formula and stops after the `)` |
| ParserProperties.RoundTrip | parser.py:116-120 | Parsing the rendering of any tree, followed by `Eof`, gives back that tree |
| ParserProperties.NotToBiconditional | parser.py:84-114 | An operand followed by a token that no level consumes passes unchanged through every level |
| ParserProperties.AndNode | parser.py:84-90 | `a & b`, followed by a stopping token, parses as `And(a, b)` |
| ParserProperties.OrNode | parser.py:92-98 | An or between `a` and `b` parses as `Or(a, b)` |
| ParserProperties.ImpliesNode | parser.py:100-106 | `a -> b` parses as `Implies(a, b)` |
| ParserProperties.BiconditionalNode | parser.py:108-114 | `a <-> b` parses as `Biconditional(a, b)` |
| ParserProperties.TwoOperands | parser.py:84-114 | Any two operands joined by any binary operator parse as that operator's node; `!a & b`, for example, parses as `And(Not(a), b)` |
| ParserProperties.AndLeftAssociative | parser.py:84-90 | `a & b & c` parses as `And(And(a, b), c)` |
| ParserProperties.OrLeftAssociative | parser.py:92-98 | `a`, or, `b`, or, `c` parses as `Or(Or(a, b), c)` |
| ParserProperties.BiconditionalLeftAssociative | parser.py:108-114 | `a <-> b <-> c` parses as `Biconditional(Biconditional(a, b), c)` |
| ParserProperties.ImpliesRightAssociative | parser.py:100-106 | `a -> b -> c` parses as `Implies(a, Implies(b, c))` |
| ParserProperties.ImpliesStep | parser.py:100-106 | The `->` level reads a left side, `->`, and a right side that is itself an implication |
| ParserProperties.AndBindsTighterThanOr | parser.py:84-98 | `a & b` or `c` parses as `Or(And(a, b), c)`, and `a` or `b & c` as `Or(a, And(b, c))` |
| ParserProperties.OrBindsTighterThanImplies | parser.py:92-106 | With the or operator between `a` and `b` and `->` before `c`, the tokens parse as `Implies(Or(a, b), c)`; with `->` between `a` and `b` and the or operator before `c`, as `Implies(a, Or(b, c))` |
| ParserProperties.ImpliesBindsTighterThanBiconditional | parser.py:100-114 | `a -> b <-> c` parses as `Biconditional(Implies(a, b), c)`, and `a <-> b -> c` as `Biconditional(a, Implies(b, c))` |
| ParserProperties.FailsUpward | parser.py:84-120 | An error at the `&` level is the error of the whole parse |
| ParserProperties.DanglingOperator | parser.py:73-76 | `a &` followed by `Eof` fails with "expected a primary, found `Eof`" |
| ParserProperties.TrailingFormula | parser.py:116-120 | Two formulas side by side, as in `A B`, fail with "tokens remaining" |
| ParserProperties.UnclosedParenthesis | parser.py:68-72 | `(` + formula + `Eof` fails with "expected `)`, found `Eof`" |
| ParserProperties.EmptyFormula | parser.py:73-76 | A token list holding only `Eof` fails with "expected a primary, found `Eof`" |
| Evaluation.Evaluate | evaluator.py:8-21 | Under an assignment that binds every variable, the result is the formula's classical truth value; an error names a variable of the formula that the assignment lacks |
| Evaluation.ConnectiveTables | evaluator.py:12-21 | `Not` negates; `And` and `Or` are conjunction and disjunction; `Implies` is false only for a true left and a false right side; `Biconditional` is true exactly when both sides agree |
| Evaluation.ShortCircuit | evaluator.py:14-19 | A false left side decides `And` and `Implies`, and a true one decides `Or`, whatever the right side is, even a right side with unbound variables |
| Evaluation.EvaluateLocal | evaluator.py:10-21 | Two assignments that agree on the formula's variables give the same result; extra keys make no difference |
| Evaluation.Extract | evaluator.py:32-39 | Adds exactly the formula's variable names to the collected set |
| Evaluation.SortedChars | evaluator.py:30 | The sorted list of a set is strictly increasing and has exactly the set's elements |
| Evaluation.IncreasingUnique | evaluator.py:30 | Only one strictly increasing list has a given set of elements, so sorting is determined by the set |
| Evaluation.GetVariables | evaluator.py:27-30 | The result is strictly increasing, so it has no duplicates; it holds exactly the formula's variable names, one entry per distinct name |
| Evaluation.IncreasingCard | evaluator.py:30 | A strictly increasing list has as many entries as it has distinct elements |
| TruthTable.Assignments | evaluator.py:64-77 | The enumeration from `index` yields 2^(n - index) assignments |
| TruthTable.AssignmentsShape | evaluator.py:64-77 | Each generated assignment binds every variable from `index` on and keeps every other entry of the starting dictionary |
| TruthTable.AssignmentsOutside | evaluator.py:72-75 | Entries of the shared dictionary for the variables still to be enumerated do not affect the enumeration, so leftover `False` values from the first branch are harmless |
| TruthTable.AssignmentsOrder | evaluator.py:70-75 | The k-th assignment, read as a binary number with the first variable most significant and true as 1, equals 2^(n - index) - 1 - k: the order is descending |
| TruthTable.BinaryValueExtremes | evaluator.py:70-75 | A row reads as the largest number exactly when it is all true, and as zero exactly when it is all false |
| TruthTable.TableShape | evaluator.py:56 | Every assignment of the full table binds every variable, and the k-th one reads as 2^n - 1 - k |
| TruthTable.AssignmentsDistinct | evaluator.py:64-77 | No assignment is listed twice |
| TruthTable.FirstAndLast | evaluator.py:70-75 | The first assignment makes every variable true and the last makes every variable false |
| TruthTable.CoversVars | evaluator.py:56-60 | An assignment that binds every extracted variable binds every variable of the formula |
| TruthTable.JoinLength | evaluator.py:50 | Joining n one-character names with the three-character separator (space, vertical bar, space) gives n + 3(n - 1) characters |
| TruthTable.TruthTableGenerator.constructor | evaluator.py:43-47 | The variables are the formula's sorted distinct names, and their count is recorded |
| TruthTable.TruthTableGenerator.GenerateAssignments | evaluator.py:64-77 | Returns the enumeration from `index` and leaves the shared dictionary with every remaining variable set to `False` and the rest unchanged |
| TruthTable.TruthTableGenerator.RowFor | evaluator.py:57-61 | A row holds the values of the sorted variables and the formula's value under the assignment; evaluation never meets an unbound variable |
| TruthTable.TruthTableGenerator.GenerateRows | evaluator.py:56-62 | There are 2^n rows. Row k belongs to the k-th assignment and its value is the formula's truth value under it. The rows' values count down from all true to all false |
| TruthTable.TruthTableGenerator.SeparatorLength | evaluator.py:50-54 | The dashed line is exactly as long as the header line, that is 3 + the formula's length with no variables and 4n + the formula's length with n variables |

## Left out

- main.py is not part of this model: reading the formula, command-line flags, the debug printer, and printing errors to standard error are I/O.
- The `print` calls of `generate_and_print` and the rendering of values as `T` and `F` are left out. The model builds the rows as values (`GenerateRows`) and the header line as a string, and states the separator's length rather than printing dashes.
- Error messages are not modelled as text. Each error is a value that carries its kind and what the message reports:
  - a lexer error carries the offending character and its position;
  - `UnexpectedToken` (a failed consume) carries the expected and the found token kinds;
  - `ExpectedPrimary` carries the found token kind only;
  - `MissingVariableName` and `TokensRemaining` carry nothing.
- `str.isspace` is modelled as a fixed predicate over the code points Python counts as whitespace. Unicode tables are not consulted.
- Python's dictionaries and sets become Dafny `map<char, bool>` and `set<char>`. Hashing and iteration order are not modelled. The sorted list is built from the least remaining element rather than by Python's sort, and `IncreasingUnique` shows that the result is the same.
- Variable names are single characters (`Var(name: char)`). The parser assumes that every variable token carries a one-character lexeme (`NamedVariables`), and `Parsing.LexedTokens` proves that the lexer always delivers such tokens.
- The parser's check for a variable token without a lexeme is kept as the `MissingVariableName` error. Tokens from the lexer never reach it.
- The `Evaluator` class, which only stores the assignment, is modelled as an argument of the function `Evaluate`.
- `Evaluate`'s error for an unbound variable is a value, where Python raises `KeyError`. The `case _` error is left out because the datatype has no other variants.
- Evaluation.Evaluate: the result is related to the reference semantics `Truth` only for assignments that bind every variable. With an unbound variable, it states only that the error names one of the formula's variables that the assignment lacks; which one depends on the evaluation order, as in the source.
- TruthTable.TruthTableGenerator.GenerateRows: its rows hold booleans, not the `T`/`F` strings that are printed.
- The text-level round trip (formula text → lexer → parser) is not modelled. The round trip is stated from token lists onwards, and the lexer's side is covered by its per-character lemmas.
