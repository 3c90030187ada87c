/** The tokens of awk (src/awk_lexer.h). */
module AwkTokens {

  datatype TokType =
      EndOfFile | Newline
    | Number | StringLit | Ere
    | FuncName | Name | BuiltinFunc
    | KwGetline | KwBegin | KwEnd | KwFunction | KwIf | KwElse | KwWhile | KwFor | KwDo
    | KwBreak | KwContinue | KwNext | KwNextFile | KwExit | KwReturn | KwDelete | KwIn | KwPrint | KwPrintf
    | LBrace | RBrace | LParen | RParen | LBracket | RBracket | Semi | Comma | Dollar
    | AssignTok | AddAssign | SubAssign | MulAssign | DivAssign | ModAssign | PowAssign
    | OrOr | AndAnd | NotTok
    | Less | LessEq | Greater | GreaterEq | Equal | NotEqual
    | MatchTok | NoMatch
    | Plus | Minus | Star | Slash | Percent | Caret
    | Incr | Decr
    | Question | Colon
    | Append | Pipe

  /** A C string pointer: null or the text. */
  datatype Text = NoText | Text(chars: string)

  /** `num` is the spelling of a number; its value is not part of the model. */
  datatype Token = Token(typ: TokType, text: Text, num: string, line: nat)
}
