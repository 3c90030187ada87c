/** Writing a program and parsing the text gives the program back
    (src/awk_lexer.c and src/awk_parser.c together). */
module AwkRoundTrip {

  import opened AwkAst
  import AwkDressing
  import opened AwkGrammar
  import opened AwkLexer
  import AwkListing
  import opened AwkParser
  import AwkPrinter
  import AwkSpelling
  import opened AwkTrees
  import opened Wrappers

  /** `src` is the program written down, with a blank behind each token: on one line, with
      semicolons, or with the ends of lines where they may stand. */
  ghost predicate IsWritten(src: string, items: seq<Node>, nl: bool) {
    && AwkListing.AllItems(items) && NulFree(src)
    && AwkSpelling.AllPrintable(AwkListing.ShowItems(nl, items, []), AwkSpelling.BEGINNING)
    && src == AwkSpelling.Render(AwkListing.ShowItems(nl, items, []), AwkSpelling.BEGINNING)
  }

  /** The lexer takes what is written apart as it was put together. */
  lemma WrittenIsLexed(src: string, items: seq<Node>, nl: bool)
    requires IsWritten(src, items, nl)
    ensures LexLines(src, START) == AwkListing.ShowItems(nl, items, [])
  {
    hide AwkListing.AllItems, AwkSpelling.Render, AwkSpelling.AllPrintable;
    AwkSpelling.WrittenTextIsRead(AwkListing.ShowItems(nl, items, []));
  }

  /** Rules and definitions, with all the statements in them, that are written down and
      parsed come back as they were. */
  method ParseWritten(src: string, ghost items: seq<Node>, ghost nl: bool) returns (prog: Option<seq<Node>>)
    requires IsWritten(src, items, nl)
    ensures prog == Some(items)
  {
    WrittenIsLexed(src, items, nl);
    hide *;
    WrittenFits(src, items, nl);
    prog := ParseProgram(src, true, items, nl);
  }

  lemma WrittenFits(src: string, items: seq<Node>, nl: bool)
    requires IsWritten(src, items, nl)
    ensures AwkListing.AllItems(items) && NulFree(src)
  {
  }

  // ---------- one expression ----------

  /** The program that is one expression: a rule with that pattern and no action. */
  function PatternOnly(e: Node): seq<Node> {
    [RuleNode(PatExpr, e, Null, Null)]
  }

  lemma PatternIsItem(e: Node)
    requires AwkPrinter.Fits(false, e, 13)
    ensures AwkListing.AllItems(PatternOnly(e))
    ensures AwkListing.ShowItems(false, PatternOnly(e), []) == AwkPrinter.Show(false, e, [])
  {
    assert AwkPrinter.LineEnd(false) + [] == [];
    hide AwkPrinter.Fits, AwkPrinter.Show;
  }

  /** Whatever the expression, with the parentheses it needs it comes back as it was
      written, and that is the same expression but for them. */
  method ParseDressed(src: string, ghost e: Node) returns (prog: Option<seq<Node>>)
    requires AwkDressing.IsExpression(e) && NulFree(src)
    requires AwkSpelling.AllPrintable(AwkPrinter.Show(false, AwkDressing.Dress(e), []), AwkSpelling.BEGINNING)
    requires src == AwkSpelling.Render(AwkPrinter.Show(false, AwkDressing.Dress(e), []), AwkSpelling.BEGINNING)
    ensures prog == Some([RuleNode(PatExpr, AwkDressing.Dress(e), Null, Null)])
    ensures AwkDressing.Bare(AwkDressing.Dress(e)) == AwkDressing.Bare(e)
  {
    AwkDressing.DressedFits(e);
    WhenWritten(src, AwkDressing.Dress(e));
    hide *;
    prog := ParseWritten(src, PatternOnly(AwkDressing.Dress(e)), false);
    PatternOnlyIs(AwkDressing.Dress(e));
  }

  lemma PatternOnlyIs(e: Node)
    ensures PatternOnly(e) == [RuleNode(PatExpr, e, Null, Null)]
  {
  }

  lemma WhenWritten(src: string, e: Node)
    requires AwkPrinter.Fits(false, e, 13) && NulFree(src)
    requires AwkSpelling.AllPrintable(AwkPrinter.Show(false, e, []), AwkSpelling.BEGINNING)
    requires src == AwkSpelling.Render(AwkPrinter.Show(false, e, []), AwkSpelling.BEGINNING)
    ensures IsWritten(src, PatternOnly(e), false)
  {
    PatternIsItem(e);
    hide AwkListing.ShowItems, AwkListing.AllItems, PatternOnly;
  }
}
