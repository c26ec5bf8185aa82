/** The assembler from source text to image bytes: lexer, parser and both encoding passes in sequence. */
module Assembler {
  import opened Wrappers
  import L = AsmLexer
  import P = AsmParser
  import U = AsmParserUnit
  import E = AsmEncoder

  method AssembleText(src: string) returns (image: Option<seq<E.Byte>>)
    requires E.Fits(src)
    ensures image == E.Assemble(src)
  {
    hide L.Lex, P.Parse, E.Fill, E.NoWrap, E.AllProper;
    var toks := L.LexText(src);
    if toks.None? { return None; }
    var parser := new U.Parser(toks.value);
    var ss := parser.Parse();
    if ss.None? { return None; }
    E.StatementsProper(src);
    image := E.Encoded(ss.value);
  }
}
