/**
 * Single lines from the in-file tests of the line counter
 * (src/function_analyzer.rs:103-358), each with the class those tests
 * expect it to land in. Together with `CountsOfClasses`, which says that a
 * span's counts are the tallies of its lines' classes, these fix the
 * outcome of every line the tests single out.
 */
module LineFixtures {
  import opened FunctionAnalyzer

  // ---------------------------------------------------------------------
  // Two shapes of line
  // ---------------------------------------------------------------------

  /** Whitespace up to `pad`, then a non-blank other than '/': a code line. */
  lemma CodeAfter(line: string, pad: nat)
    requires pad < |line| && Blank(line[..pad])
    requires !IsWhitespace(line[pad]) && line[pad] != '/'
    ensures Classify(line) == Code
  {
    CodeLine(line[..pad], line[pad], line[pad + 1..]);
    assert line[..pad] + [line[pad]] + line[pad + 1..] == line;
  }

  /** Whitespace up to `pad`, then a comment opener: a comment line. */
  lemma CommentAfter(line: string, pad: nat)
    requires CommentAt(line, pad)
    ensures Classify(line) == Comment
  {
    ClassifySpec(line);
  }

  // ---------------------------------------------------------------------
  // The lines of the tests
  // ---------------------------------------------------------------------

  /** Leading spaces before a line-comment opener still make a comment line. */
  lemma IndentedLineComment()
    ensures Classify("    // Comment with leading spaces") == Comment
  {
    CommentAfter("    // Comment with leading spaces", 4);
  }

  /** A tab before a block-comment opener still makes a comment line. */
  lemma TabbedBlockComment()
    ensures Classify("\t/* Comment with tab */") == Comment
  {
    CommentAfter("\t/* Comment with tab */", 1);
  }

  /** A line of spaces only is empty. */
  lemma SpacesOnly()
    ensures Classify("  ") == Empty
  {
    BlankIsEmpty("  ");
  }

  /** A line of tabs only is empty. */
  lemma TabsOnly()
    ensures Classify("\t\t") == Empty
  {
    BlankIsEmpty("\t\t");
  }

  /** A comment after code leaves the line a code line. */
  lemma TrailingComment()
    ensures Classify("code_line();  // Inline comment") == Code
  {
    CodeAfter("code_line();  // Inline comment", 0);
  }

  /** A block-comment opener alone on its line is a comment line. */
  lemma BareBlockOpener()
    ensures Classify("/*") == Comment
  {
    CommentAfter("/*", 0);
  }

  /** The opening line of a block comment is a comment line. */
  lemma BlockCommentHead()
    ensures Classify("/* Multi-line comment") == Comment
  {
    CommentAfter("/* Multi-line comment", 0);
  }

  /** The closing line of a block comment does not start with an opener, so it counts as code. */
  lemma BlockCommentTail()
    ensures Classify("   continues here */") == Code
  {
    CodeAfter("   continues here */", 3);
  }

  /** The same inside a function body, with deeper indentation. */
  lemma IndentedBlockCommentTail()
    ensures Classify("       using complex logic */") == Code
  {
    CodeAfter("       using complex logic */", 7);
  }
}
