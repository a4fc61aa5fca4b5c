# rust-chibicc arithmetic front end, modelled in Dafny

This project models the small arithmetic front end of rust-chibicc.

- **Character lexer (`src/lexer.rs`).** A cursor over the input characters. Each call of `token` skips whitespace and returns at most one token:
  - a maximal run of digits and full stops is read as one numeral: it becomes a `u64` number when it is all digits and fits in 64 bits, and yields nothing otherwise (a run holding a `.`, say);
  - each of `+ - * / ( )` is its own token;
  - anything else yields nothing, and the cursor still moves past it.
- **Parser (`src/parser.rs`).** A precedence-climbing (Pratt) parser with a current and a lookahead token. It builds `Number`, `PrefixExpr` and `InfixExpr` trees.
- **`eval` (`src/lexer.rs`).** Reduces a tree to a number.
- **Flat tokenizer (`src/main.rs`).** An iterator over a string slice that knows only signs and numbers, and panics on anything else. `Token::expect_num` belongs to it.
- **`split_digit` (`src/lib.rs`, copied in `src/main.rs`).** Cuts a string where its leading digits end.

## Layout

- `base.dfy`: `Option` and `Result`.
- `chars.dfy`: Rust's character classes, `u64`, and decimal numerals together with `str::parse::<u64>`.
- `digits.dfy`: `split_digit`.
- `lexer.dfy`: the meaning of one `token` call (`LexStep`) and of all of them (`LexAll`), plus the `Lexer` class. `Lexer.NextToken` is proved to compute `LexStep`.
- `lexer_props.dfy`: whole-input facts about the lexer. The main one is that the laid-out text of any token sequence lexes back to that sequence.
- `ast.dfy`: expression trees.
- `parser.dfy`: one function per parser method, over a `TokenState` (the two token slots and the tokens the lexer has yet to yield). It also holds the `Parser` class, whose methods are proved to compute those functions.
- `parser_props.dfy`: the main parser facts:
  - printing a tree and parsing it gives the tree back;
  - chains of one precedence associate to the left;
  - `*` and `/` bind tighter than `+` and `-` on either side;
  - the smaller facts about lookahead, groups and the loop.
- `eval.dfy`: `eval`, with truncating division, and the exact condition under which it fails.
- `flat.dfy`: the `TokenIter` class and the meaning of one `next` call (`NextStep`).
- `flat_props.dfy`: on text of whitespace, digits and signs, the flat tokenizer and the character lexer agree, as long as the flat tokenizer does not panic (on a numeral too large for a `u64` it panics, where the lexer yields nothing for that run).
- `unknown_input.dfy`: a line with an unknown character, followed through the lexer and the parser.
- `source_tests.dfy`: what `test_lexer`, `test_parser` and `test_eval` expect, stated over the model.

## Model

| member | source | states |
|---|---|---|
| Chars.DecimalValueOfString | src/lexer.rs:70-73 | the decimal numeral of any n is made of ASCII digits and parses back to n |
| Chars.ParseDigits | src/lexer.rs:70-73 | a non-empty string of ASCII digits parses to its decimal value exactly when that value fits in a u64, and to nothing otherwise |
| Chars.ParseU64 | src/lexer.rs:70-72 | `parse::<u64>` succeeds only on a non-empty string that starts with a digit, or with a `+` followed by more, and ends with a digit; ParseDigits, ParsePlusDigits and ParseRejectsNonDigit give the exact condition |
| Chars.ParsePlusDigits | src/lexer.rs:70-72 | a leading `+` is dropped and the digits after it are read as without it; a second `+` right after it makes the parse fail |
| Chars.ParseRejectsNonDigit | src/lexer.rs:70-73 | a string holding a character that is neither a digit nor a leading `+` (a full stop, or a `+` after the first position) does not parse |
| SplitDigits.FindNonNumeric | src/lib.rs:2 | the index found is the first non-digit: every character before it is a digit; with no index, the whole string is digits |
| SplitDigits.SplitDigit | src/lib.rs:1-4 | the two parts join back to the input, the first is all digits, and the second is empty or starts with a non-digit |
| SplitDigits.SplitDigitUnique | src/lib.rs:1-4 | any split with those three properties is the one split_digit returns, so the prefix is the maximal one |
| SplitDigits.SplitAllNumeric | src/lib.rs:2 | a string of digits only is all prefix, with an empty rest (the `unwrap_or(s.len())` case) |
| SplitDigits.SplitLeadingNonNumeric | src/lib.rs:1-4 | a string that starts with a non-digit gives an empty prefix and the whole string as the rest |
| Lexing.NumberCharacters | src/lexer.rs:102-104 | `is_number` holds exactly for the ten digits and the full stop |
| Lexing.SingleCharToken | src/lexer.rs:76-84 | a character has a token exactly when it is one of `+ - * / ( )`, and that token is never a number |
| Lexing.SkipWhitespace | src/lexer.rs:58-60 | the skipping loop stops at or after the cursor and within the input; everything it passes is whitespace, and it stops on a non-whitespace character or at the end |
| Lexing.RunEnd | src/lexer.rs:66-69 | the number run ends within the input; every character in it is a digit or `.`, and the character after it is neither |
| Lexing.LexStep | src/lexer.rs:55-88 | `token` never moves the cursor back or past the end, and it moves forward whenever a non-whitespace character is left |
| Lexing.LexAllLength | src/lexer.rs:55-88 | `LexAll`, the stream of successive `token` results until only whitespace is left (a `None` is kept and lexing goes on after it), is no longer than the input left: every element uses up at least one character |
| Lexing.LexAllCons | src/lexer.rs:55-88 | while a non-whitespace character is left, the stream is one `token` call's result followed by the stream from where that call left the cursor |
| Lexing.LexAllStep | src/lexer.rs:55-88 | the stream the parser sees is what successive `token` calls return: the first element is one call's token and the rest starts where that call left the cursor |
| Lexing.SkipWhitespaceAt | src/lexer.rs:58-60 | whitespace skipping stops exactly at the first non-whitespace character |
| Lexing.RunEndAt | src/lexer.rs:66-69 | the number loop stops exactly at the first character that is not a digit or `.` |
| Lexing.NumberToken | src/lexer.rs:62-73 | after the whitespace, a maximal run of digits becomes exactly one Number token holding its decimal value, and the cursor ends right after the run |
| Lexing.MalformedNumber | src/lexer.rs:63-73 | a maximal run holding a `.`, or a value above u64::MAX, yields no token, and the cursor still moves past the whole run |
| Lexing.OperatorToken | src/lexer.rs:76-86 | after the whitespace, each of `+ - * / ( )` maps to its own token and uses up exactly one character |
| Lexing.UnknownCharacter | src/lexer.rs:83-86 | any other character yields no token, and the cursor still moves one character on |
| Lexing.EndOfInput | src/lexer.rs:58-62 | when only whitespace is left, the token is None, the cursor is at the end, and the lexer yields nothing more |
| Lexing.Lexer.constructor | src/lexer.rs:51-53 | a new lexer holds the input with the cursor at 0 |
| Lexing.Lexer.Curr | src/lexer.rs:94-96 | the character under the cursor, present exactly when the cursor is inside the input |
| Lexing.Lexer.Peek | src/lexer.rs:98-100 | the character after the cursor, present exactly when that position is inside the input |
| Lexing.Lexer.Next | src/lexer.rs:90-92 | the cursor moves one position on |
| Lexing.Lexer.SkipSpaces | src/lexer.rs:58-60 | the whitespace loop leaves the cursor where SkipWhitespace says |
| Lexing.Lexer.ReadNumber | src/lexer.rs:65-69 | the digit loop collects exactly the maximal run of number characters and leaves the cursor on its last character |
| Lexing.Lexer.NextToken | src/lexer.rs:55-88 | `token` returns LexStep's token and leaves the cursor where LexStep says |
| LexerProps.LexAllSkipsWhitespace | src/lexer.rs:58-60 | a whitespace character under the cursor changes nothing the lexer yields |
| LexerProps.LexStepTokenText | src/lexer.rs:55-88 | with a token's text under the cursor, `token` yields that token and stops right after the text, unless a number is glued to another number character |
| LexerProps.LayoutThenLex | src/lexer.rs:55-88 | the text of any token sequence (numbers in decimal, spaces optional except between two numbers) lexes back to exactly that sequence |
| LexerProps.SpacedLayoutThenLex | src/lexer.rs:55-88 | with a space after every token, the text of any token sequence lexes back to exactly that sequence |
| Parsing.TokenPrecedence | src/parser.rs:130-136 | `+` and `-` are exactly the SUM tokens, `*` and `/` exactly the PRODUCT tokens, and no token is PREFIX |
| Parsing.PeekPrecedence | src/parser.rs:123-129 | an absent lookahead is LOWEST; otherwise the lookahead's own precedence |
| Parsing.OperatorOf | src/parser.rs:101-103 | an infix node's operator label names its token: Plus, Minus, Times or Divides |
| Parsing.IsPeek | src/parser.rs:117-122 | is_peek never holds without a lookahead; IsPeekVariant gives the exact condition |
| Parsing.NextState | src/parser.rs:113-116 | the lookahead becomes current and the lexer's next token (None when exhausted) becomes the lookahead; a shift with something left to shift consumes input |
| Parsing.InitialState | src/parser.rs:42-46 | a new parser's current token is the stream's first element and its lookahead the second (None where the stream is shorter), and the rest of the stream follows them |
| Parsing.Expression | src/parser.rs:50-59 | parse_expression consumes tokens and never produces them, and every tree it returns is well formed |
| Parsing.InfixLoop | src/parser.rs:53-56 | the loop consumes tokens and extends a well-formed left operand into a well-formed tree |
| Parsing.PrefixProduction | src/parser.rs:60-67 | parse_prefix succeeds only when the current token is `-`, a number or `(`; an absent token or any other one gives None |
| Parsing.MinusProduction | src/parser.rs:68-75 | on success, a unary minus builds a well-formed PrefixExpr node; MinusOperandFails gives the failure case |
| Parsing.NumberProduction | src/parser.rs:76-81 | parse_number succeeds exactly on a current Number token, gives a leaf with its value, and shifts nothing |
| Parsing.GroupedProduction | src/parser.rs:82-91 | a grouped expression consumes tokens and gives a well-formed tree |
| Parsing.InfixProduction | src/parser.rs:92-100 | parse_infix consumes tokens and keeps trees well formed |
| Parsing.InfixExpressionProduction | src/parser.rs:101-112 | on success, the result is an infix node whose left operand is the given one and whose operator is the current token's; InfixOperandFails gives the failure case |
| Parsing.ParseTokens | src/parser.rs:47-49 | a parse of a token stream is a well-formed tree |
| Parsing.ParseText | src/parser.rs:151-156 | lexing then parsing a line gives a well-formed tree or nothing |
| Parsing.Parser.constructor | src/parser.rs:42-46 | a new parser holds the lexer's first two tokens in its slots, and the rest of the lexer's stream after them |
| Parsing.Parser.Next | src/parser.rs:113-116 | `next` shifts the token state exactly as NextState says |
| Parsing.Parser.Parse | src/parser.rs:47-49 | `parse` computes Expression at LOWEST and leaves the state it describes |
| Parsing.Parser.ParseExpression | src/parser.rs:50-59 | the loop computes Expression (prefix, then InfixLoop) and leaves the state it describes |
| Parsing.Parser.ParsePrefix | src/parser.rs:60-67 | computes PrefixProduction |
| Parsing.Parser.ParseMinus | src/parser.rs:68-75 | computes MinusProduction |
| Parsing.Parser.ParseNumber | src/parser.rs:76-81 | computes NumberProduction and changes no token slot |
| Parsing.Parser.ParseGroupedExpression | src/parser.rs:82-91 | computes GroupedProduction |
| Parsing.Parser.ParseInfix | src/parser.rs:92-100 | computes InfixProduction |
| Parsing.Parser.ParseInfixExpression | src/parser.rs:101-112 | computes InfixExpressionProduction |
| ParserProps.IsPeekVariant | src/parser.rs:117-122 | is_peek holds exactly when a lookahead is present and has the given token's variant; any number matches any number |
| ParserProps.GroupedNeedsClosing | src/parser.rs:82-91 | a group succeeds exactly when its inner expression parses and the token after it is `)`; with `)` next, the result is the inner result and `)` is shifted, otherwise the result is None and the lookahead is left unconsumed |
| ParserProps.LoopStops | src/parser.rs:53-58 | when the lookahead does not bind more strongly than the current precedence, parse_expression returns its left operand and consumes nothing more |
| ParserProps.NonOperatorStops | src/parser.rs:53-58 | a lookahead that is not an operator (a number, `(` or `)`) ends the loop and stays unconsumed |
| ParserProps.MinusOperandFails | src/parser.rs:68-75 | when the operand after `-` does not parse, parse_minus returns None (the `?` of line 70) |
| ParserProps.InfixOperandFails | src/parser.rs:101-112 | when the right operand does not parse, parse_infix_expression returns None (the `?` of line 106) |
| ParserProps.LoopFails | src/parser.rs:53-56 | when the lookahead binds more strongly and the infix node after it fails, parse_expression returns None (the `?` of line 55) |
| ParserProps.LastOperatorFails | src/parser.rs:92-112 | an operator with no token after it has no right operand, so parse_infix returns None |
| ParserProps.TrailingOperatorFails | src/parser.rs:47-59 | a line made of a tree's tokens and then one operator does not parse: an operator with no right operand is an error |
| ParserProps.PrefixRoundTrip | src/parser.rs:60-91 | the tokens of a tree, followed by anything, parse back to that tree through parse_prefix |
| ParserProps.MinusRoundTrip | src/parser.rs:68-75 | `-` followed by the tokens of an operand parses to a PrefixExpr over that operand |
| ParserProps.GroupRoundTrip | src/parser.rs:82-91 | `(`, a tree's tokens, `)` parse back to the tree itself |
| ParserProps.ExpressionRoundTrip | src/parser.rs:50-59 | a tree's tokens, followed by a stream whose first token does not bind more strongly than the given precedence, parse back to that tree and stop on its last token |
| ParserProps.PrintThenParse | src/parser.rs:47-49 | for every well-formed tree, parsing its fully parenthesised tokens gives the tree back |
| ParserProps.ChainLeftAssociative | src/parser.rs:101-112 | `n0 o1 n1 ... ok nk`, with all operators of one precedence, parses to the left-nested tree `((n0 o1 n1) ...) ok nk` |
| ParserProps.ProductBindsTighterOnTheRight | src/parser.rs:53-56 | `a + b * c` (any additive, then any multiplicative operator) parses to `a + (b * c)` |
| ParserProps.ProductBindsTighterOnTheLeft | src/parser.rs:53-56 | `a * b + c` parses to `(a * b) + c` |
| Evaluation.TruncDiv | src/lexer.rs:131 | the quotient is no larger in magnitude than the dividend, and a non-zero quotient is negative exactly when dividend and divisor have opposite signs |
| Evaluation.TruncDivRemainder | src/lexer.rs:131 | the quotient rounds toward zero: its magnitude is the quotient of the magnitudes, and the remainder is smaller than the divisor and has the dividend's sign |
| Evaluation.Apply | src/lexer.rs:127-132 | applying an operator fails exactly on a division by zero |
| Evaluation.Eval | src/lexer.rs:116-136 | a tree without a division always has a value; EvalFailsIffDividesByZero gives the exact failure condition, TruncDivRemainder the rounding of `/`, and TestEval the values the tests expect |
| Evaluation.EvalFailsIffDividesByZero | src/lexer.rs:116-136 | evaluation fails exactly when some division in the tree has a right operand that evaluates to zero |
| FlatTokenizer.ExpectNum | src/main.rs:14-19 | gives a number token's value; any other token panics, naming that token |
| FlatTokenizer.TrimStart | src/main.rs:39 | the trimmed string is a suffix of the input; everything removed is whitespace, and the result starts with a non-whitespace character or is empty |
| FlatTokenizer.NextStep | src/main.rs:38-62 | `next` never lengthens the held string; it shortens it whenever it yields a token, and it empties it at the end |
| FlatTokenizer.NextKeepsSuffix | src/main.rs:38-62 | after `next` the iterator holds a suffix of what it held before, a strictly shorter one when a token comes out |
| FlatTokenizer.TokenIter.constructor | src/main.rs:29-31 | tokenize holds the whole input and does nothing else |
| FlatTokenizer.TokenIter.Next | src/main.rs:38-62 | the method returns NextStep's outcome and leaves the held string where NextStep says |
| FlatTokenizer.TrimStartAt | src/main.rs:39 | trimming stops exactly at the first non-whitespace character |
| FlatTokenizer.NextAtEnd | src/main.rs:39-42 | with only whitespace left, `next` returns None and holds the empty string |
| FlatTokenizer.NextSign | src/main.rs:43-53 | a `+` or `-` after the whitespace is one token, and exactly that one character is consumed |
| FlatTokenizer.NextNumber | src/main.rs:55-59 | a maximal run of digits is one Number with its decimal value, or the `unwrap` panic when it does not fit in a u64; either way the held string becomes what follows the run |
| FlatTokenizer.NextInvalid | src/main.rs:55-61 | any other character, `* / ( )` included, panics with "Invalid token stream" |
| FlatProps.FlatAgreesWithLexer | src/main.rs:38-62 | on whitespace, digits and signs, a run of `next` to its end that does not panic yields exactly the tokens the character lexer yields |
| SourceTests.DoParser | src/parser.rs:151-156 | a fresh lexer and parser over an input parse exactly ParseText of it |
| SourceTests.TestLexer | src/lexer.rs:107-114 | four `token` calls on "1 + 2" give Number(1), Plus, Number(2), None |
| SourceTests.ParseGrouped | src/lexer.rs:142 | "1 + (2 + 3) * -(3 / 3)" parses to `1 + ((2 + 3) * -(3 / 3))`, with no node for the parentheses |
| SourceTests.TestParser | src/parser.rs:139-149 | "1 + 2" and "- 1 + 2 * 3" parse to `1 + 2` and `(-1) + (2 * 3)` |
| SourceTests.TestEval | src/lexer.rs:138-143 | the three inputs parse and evaluate to 3, 7 and -4 |
| UnknownInput.UnknownCharacterLexSteps | src/lexer.rs:55-88 | on "1 & 2" the successive `token` calls give Number(1), nothing for `&` with the cursor moved past it, Number(2), then the end |
| UnknownInput.UnknownCharacterSteps | src/lexer.rs:76-86 | on "1 & 2" the lexer yields Number(1), None for `&`, then Number(2) |
| UnknownInput.UnknownCharacterEndsParse | src/parser.rs:50-59 | "1 & 2" parses to the number 1: the `None` in the lookahead ends the loop, and no error is reported |

## Left out

- `src/tokenizer.rs` is not part of this model. It is a wrapper over the `combine` parser-combinator crate, and that library is not modelled.
- The interactive loop of `src/lexer.rs` (lines 5-29) and the `main` of `src/main.rs` (lines 71-93) are not modelled. They consist of standard input and output, program arguments and the printing of assembly text.
- Lexing.IsNumber and SplitDigits.FindNonNumeric: `char::is_numeric` and `is_ascii_digit` are both modelled as the ASCII digits `0`-`9`. The Unicode numeric characters that `split_digit` would also accept are not modelled. `char::is_whitespace` is modelled exactly, with the full Unicode White_Space list.
- Evaluation.Eval: values are mathematical integers. The source computes in `u64`:
  - unary negation of an unsigned value (line 119) and the test expectation `-4_u64` do not compile as written;
  - `+`, `-` and `*` panic on overflow in debug builds.

  The model keeps what the tests evidently mean: exact arithmetic, with negation producing negative numbers.
- Evaluation.Apply: division by zero, a panic in the source, is the error value `DivisionByZero`. The fallback `panic!("invalid operator")` has no counterpart: operators are a closed datatype, and the parser only ever produces the four labels.
- Trees carry an operator label (`Op`) instead of the `String` produced by `format!("{:?}", token)`. The `Debug` formatting of trees (`src/parser.rs:152-156`) is not modelled. `SourceTests.TestParser` therefore compares trees, not text. The expected strings in `test_parser` (`Number(1.0)`, `"Asterisk"`) do not match what the derived `Debug` output would print.
- Parsing.MinusProduction, Parsing.GroupedProduction, Parsing.Parser.ParseMinus and Parsing.Parser.ParseGroupedExpression require a current token. The source reaches them only from `parse_prefix`, after it has matched one.
- Parsing.InfixExpressionProduction and Parsing.Parser.ParseInfixExpression require an operator as the current token. The source reaches them only from `parse_infix`, after it has matched one.
- Parsing.Parser.constructor: the source has no lexical error. A `None` from the lexer (a malformed number or an unknown character) stays in the token stream, and so does everything the lexer yields after it (`Lexing.LexAll`, `Parsing.Parser.State`). A `None` lookahead ends the infix loop and makes a group fail, and a `None` current token makes the prefix production fail, so nothing after a `None` can change the result. `"1 & 2"` therefore parses to `1` (`UnknownInput.UnknownCharacterEndsParse`) instead of being rejected as malformed input.
- `Lexing.Token` stands for both token enums: `src/lexer.rs` lines 31-40 and `src/main.rs` lines 1-10 have the same variants.
- FlatTokenizer.TokenIter.Next compares characters where the source compares the first byte (`as_bytes()[0]`). This is the same comparison, because `+` and `-` are single-byte characters.
- FlatTokenizer.TokenIter.Next: when a numeral does not fit, the source has already stored the rest of the string before `unwrap` panics. The model does the same and reports the panic as `Fail(ParseIntError)`.
- Chars.ParseU64: `u64::from_str_radix` overflow is the `None` of the lexer's `.ok()` and the `ParseIntError` panic of the flat tokenizer. Its acceptance of a leading `+` is modelled, although neither caller ever passes one.
- Lexing.Lexer.NextToken: the two loops of `token` are written as the methods `SkipSpaces` and `ReadNumber`. The `String` collected by the loop is a character sequence.
- SourceTests.TestParser and SourceTests.TestEval take the test inputs as parameters that must equal the literal strings.
