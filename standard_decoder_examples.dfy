/**
 * Documents from the decoder's test suite, decoded one code point at a
 * time: each `...PrefixK` lemma states the machine and cursor after the
 * first K code points, and the lemma named after the document states the
 * outcome of `Decode`.
 */
module StandardDecoderExamples {
  import opened Wrappers
  import opened Text
  import opened CodePoints
  import opened Nodes
  import opened StandardDecoder
  import opened StandardDecoderProperties

  /** A list after a line feed and a space: anchors count lines and columns from one. */
  lemma EmptyListAfterBlankLine()
    ensures Decode("\n []") == Ok(ListNode([], Some(Region(Position(2, 2), Position(2, 3)))))
  {
    EmptyListAfterBlankLinePrefix4();
  }

  // The machine and cursor after each prefix of the document.

  lemma EmptyListAfterBlankLinePrefix1()
    ensures Run("\n") == (Running(NullNode, [], None), Position(2, 0))
  {
    assert Step(Running(NullNode, [], None), '\n', Position(2, 0)) == Running(NullNode, [], None);
    assert Run("") == (Initial, Start);
    RunSnoc("", '\n');
    assert "" + ['\n'] == "\n";
  }

  lemma EmptyListAfterBlankLinePrefix2()
    ensures Run("\n ") == (Running(NullNode, [], None), Position(2, 1))
  {
    assert Step(Running(NullNode, [], None), ' ', Position(2, 1)) == Running(NullNode, [], None);
    EmptyListAfterBlankLinePrefix1();
    RunSnoc("\n", ' ');
    assert "\n" + [' '] == "\n ";
  }

  lemma EmptyListAfterBlankLinePrefix3()
    ensures Run("\n [") == (Running(NullNode, [ListFrame(Position(2, 2), [])], None), Position(2, 2))
  {
    assert Step(Running(NullNode, [], None), '[', Position(2, 2)) == Running(NullNode, [ListFrame(Position(2, 2), [])], None) by {
      assert [] + [ListFrame(Position(2, 2), [])] == [ListFrame(Position(2, 2), [])];
    }
    EmptyListAfterBlankLinePrefix2();
    RunSnoc("\n ", '[');
    assert "\n " + ['['] == "\n [";
  }

  lemma EmptyListAfterBlankLinePrefix4()
    ensures Run("\n []") == (Running(ListNode([], Some(Region(Position(2, 2), Position(2, 3)))), [], None), Position(2, 3))
  {
    assert Step(Running(NullNode, [ListFrame(Position(2, 2), [])], None), ']', Position(2, 3)) == Running(ListNode([], Some(Region(Position(2, 2), Position(2, 3)))), [], None) by {
      assert Below([ListFrame(Position(2, 2), [])]) == [];
      EmptyListAfterBlankLineDeliver4();
    }
    EmptyListAfterBlankLinePrefix3();
    RunSnoc("\n [", ']');
    assert "\n [" + [']'] == "\n []";
  }

  lemma EmptyListAfterBlankLineDeliver4()
    ensures Deliver(NullNode, [], ListNode([], Some(Region(Position(2, 2), Position(2, 3))))) == (ListNode([], Some(Region(Position(2, 2), Position(2, 3)))), [])
  {

  }

  /** Unquoted leaves are anchored from their first to their last code point, the list from bracket to bracket. */
  lemma UnquotedValuesInList()
    ensures Decode("[abcd efgh]") == Ok(ListNode([LeafNode("abcd", Some(Region(Position(1, 2), Position(1, 5)))), LeafNode("efgh", Some(Region(Position(1, 7), Position(1, 10))))], Some(Region(Position(1, 1), Position(1, 11)))))
  {
    UnquotedValuesInListPrefix11();
  }

  // The machine and cursor after each prefix of the document.

  lemma UnquotedValuesInListPrefix1()
    ensures Run("[") == (Running(NullNode, [ListFrame(Position(1, 1), [])], None), Position(1, 1))
  {
    assert Step(Running(NullNode, [], None), '[', Position(1, 1)) == Running(NullNode, [ListFrame(Position(1, 1), [])], None) by {
      assert [] + [ListFrame(Position(1, 1), [])] == [ListFrame(Position(1, 1), [])];
    }
    assert Run("") == (Initial, Start);
    RunSnoc("", '[');
    assert "" + ['['] == "[";
  }

  lemma UnquotedValuesInListPrefix2()
    ensures Run("[a") == (Running(NullNode, [ListFrame(Position(1, 1), [])], Some(Unquoted(Position(1, 2), Position(1, 2), "a"))), Position(1, 2))
  {
    assert Step(Running(NullNode, [ListFrame(Position(1, 1), [])], None), 'a', Position(1, 2)) == Running(NullNode, [ListFrame(Position(1, 1), [])], Some(Unquoted(Position(1, 2), Position(1, 2), "a"))) by {
      assert Below([ListFrame(Position(1, 1), [])]) == [];
    }
    UnquotedValuesInListPrefix1();
    RunSnoc("[", 'a');
    assert "[" + ['a'] == "[a";
  }

  lemma UnquotedValuesInListPrefix3()
    ensures Run("[ab") == (Running(NullNode, [ListFrame(Position(1, 1), [])], Some(Unquoted(Position(1, 2), Position(1, 3), "ab"))), Position(1, 3))
  {
    assert Step(Running(NullNode, [ListFrame(Position(1, 1), [])], Some(Unquoted(Position(1, 2), Position(1, 2), "a"))), 'b', Position(1, 3)) == Running(NullNode, [ListFrame(Position(1, 1), [])], Some(Unquoted(Position(1, 2), Position(1, 3), "ab"))) by {
      assert "a" + ['b'] == "ab";
    }
    UnquotedValuesInListPrefix2();
    RunSnoc("[a", 'b');
    assert "[a" + ['b'] == "[ab";
  }

  lemma UnquotedValuesInListPrefix4()
    ensures Run("[abc") == (Running(NullNode, [ListFrame(Position(1, 1), [])], Some(Unquoted(Position(1, 2), Position(1, 4), "abc"))), Position(1, 4))
  {
    assert Step(Running(NullNode, [ListFrame(Position(1, 1), [])], Some(Unquoted(Position(1, 2), Position(1, 3), "ab"))), 'c', Position(1, 4)) == Running(NullNode, [ListFrame(Position(1, 1), [])], Some(Unquoted(Position(1, 2), Position(1, 4), "abc"))) by {
      assert "ab" + ['c'] == "abc";
    }
    UnquotedValuesInListPrefix3();
    RunSnoc("[ab", 'c');
    assert "[ab" + ['c'] == "[abc";
  }

  lemma UnquotedValuesInListPrefix5()
    ensures Run("[abcd") == (Running(NullNode, [ListFrame(Position(1, 1), [])], Some(Unquoted(Position(1, 2), Position(1, 5), "abcd"))), Position(1, 5))
  {
    assert Step(Running(NullNode, [ListFrame(Position(1, 1), [])], Some(Unquoted(Position(1, 2), Position(1, 4), "abc"))), 'd', Position(1, 5)) == Running(NullNode, [ListFrame(Position(1, 1), [])], Some(Unquoted(Position(1, 2), Position(1, 5), "abcd"))) by {
      assert "abc" + ['d'] == "abcd";
    }
    UnquotedValuesInListPrefix4();
    RunSnoc("[abc", 'd');
    assert "[abc" + ['d'] == "[abcd";
  }

  lemma UnquotedValuesInListPrefix6()
    ensures Run("[abcd ") == (Running(NullNode, [ListFrame(Position(1, 1), [LeafNode("abcd", Some(Region(Position(1, 2), Position(1, 5))))])], None), Position(1, 6))
  {
    UnquotedValuesInListStep6();
    UnquotedValuesInListPrefix5();
    RunSnoc("[abcd", ' ');
    assert "[abcd" + [' '] == "[abcd ";
  }

  lemma UnquotedValuesInListPrefix7()
    ensures Run("[abcd e") == (Running(NullNode, [ListFrame(Position(1, 1), [LeafNode("abcd", Some(Region(Position(1, 2), Position(1, 5))))])], Some(Unquoted(Position(1, 7), Position(1, 7), "e"))), Position(1, 7))
  {
    assert Step(Running(NullNode, [ListFrame(Position(1, 1), [LeafNode("abcd", Some(Region(Position(1, 2), Position(1, 5))))])], None), 'e', Position(1, 7)) == Running(NullNode, [ListFrame(Position(1, 1), [LeafNode("abcd", Some(Region(Position(1, 2), Position(1, 5))))])], Some(Unquoted(Position(1, 7), Position(1, 7), "e"))) by {
      assert Below([ListFrame(Position(1, 1), [LeafNode("abcd", Some(Region(Position(1, 2), Position(1, 5))))])]) == [];
    }
    UnquotedValuesInListPrefix6();
    RunSnoc("[abcd ", 'e');
    assert "[abcd " + ['e'] == "[abcd e";
  }

  lemma UnquotedValuesInListPrefix8()
    ensures Run("[abcd ef") == (Running(NullNode, [ListFrame(Position(1, 1), [LeafNode("abcd", Some(Region(Position(1, 2), Position(1, 5))))])], Some(Unquoted(Position(1, 7), Position(1, 8), "ef"))), Position(1, 8))
  {
    assert Step(Running(NullNode, [ListFrame(Position(1, 1), [LeafNode("abcd", Some(Region(Position(1, 2), Position(1, 5))))])], Some(Unquoted(Position(1, 7), Position(1, 7), "e"))), 'f', Position(1, 8)) == Running(NullNode, [ListFrame(Position(1, 1), [LeafNode("abcd", Some(Region(Position(1, 2), Position(1, 5))))])], Some(Unquoted(Position(1, 7), Position(1, 8), "ef"))) by {
      assert "e" + ['f'] == "ef";
    }
    UnquotedValuesInListPrefix7();
    RunSnoc("[abcd e", 'f');
    assert "[abcd e" + ['f'] == "[abcd ef";
  }

  lemma UnquotedValuesInListPrefix9()
    ensures Run("[abcd efg") == (Running(NullNode, [ListFrame(Position(1, 1), [LeafNode("abcd", Some(Region(Position(1, 2), Position(1, 5))))])], Some(Unquoted(Position(1, 7), Position(1, 9), "efg"))), Position(1, 9))
  {
    assert Step(Running(NullNode, [ListFrame(Position(1, 1), [LeafNode("abcd", Some(Region(Position(1, 2), Position(1, 5))))])], Some(Unquoted(Position(1, 7), Position(1, 8), "ef"))), 'g', Position(1, 9)) == Running(NullNode, [ListFrame(Position(1, 1), [LeafNode("abcd", Some(Region(Position(1, 2), Position(1, 5))))])], Some(Unquoted(Position(1, 7), Position(1, 9), "efg"))) by {
      assert "ef" + ['g'] == "efg";
    }
    UnquotedValuesInListPrefix8();
    RunSnoc("[abcd ef", 'g');
    assert "[abcd ef" + ['g'] == "[abcd efg";
  }

  lemma UnquotedValuesInListPrefix10()
    ensures Run("[abcd efgh") == (Running(NullNode, [ListFrame(Position(1, 1), [LeafNode("abcd", Some(Region(Position(1, 2), Position(1, 5))))])], Some(Unquoted(Position(1, 7), Position(1, 10), "efgh"))), Position(1, 10))
  {
    assert Step(Running(NullNode, [ListFrame(Position(1, 1), [LeafNode("abcd", Some(Region(Position(1, 2), Position(1, 5))))])], Some(Unquoted(Position(1, 7), Position(1, 9), "efg"))), 'h', Position(1, 10)) == Running(NullNode, [ListFrame(Position(1, 1), [LeafNode("abcd", Some(Region(Position(1, 2), Position(1, 5))))])], Some(Unquoted(Position(1, 7), Position(1, 10), "efgh"))) by {
      assert "efg" + ['h'] == "efgh";
    }
    UnquotedValuesInListPrefix9();
    RunSnoc("[abcd efg", 'h');
    assert "[abcd efg" + ['h'] == "[abcd efgh";
  }

  lemma UnquotedValuesInListPrefix11()
    ensures Run("[abcd efgh]") == (Running(ListNode([LeafNode("abcd", Some(Region(Position(1, 2), Position(1, 5)))), LeafNode("efgh", Some(Region(Position(1, 7), Position(1, 10))))], Some(Region(Position(1, 1), Position(1, 11)))), [], None), Position(1, 11))
  {
    UnquotedValuesInListStep11();
    UnquotedValuesInListPrefix10();
    RunSnoc("[abcd efgh", ']');
    assert "[abcd efgh" + [']'] == "[abcd efgh]";
  }

  lemma UnquotedValuesInListDeliver6()
    ensures Deliver(NullNode, [ListFrame(Position(1, 1), [])], LeafNode("abcd", Some(Region(Position(1, 2), Position(1, 5))))) == (NullNode, [ListFrame(Position(1, 1), [LeafNode("abcd", Some(Region(Position(1, 2), Position(1, 5))))])])
  {
    assert [] + [LeafNode("abcd", Some(Region(Position(1, 2), Position(1, 5))))] == [LeafNode("abcd", Some(Region(Position(1, 2), Position(1, 5))))];
    assert Below([ListFrame(Position(1, 1), [])]) == [];
    assert [] + [ListFrame(Position(1, 1), [])] == [ListFrame(Position(1, 1), [])];
    assert Below([ListFrame(Position(1, 1), [LeafNode("abcd", Some(Region(Position(1, 2), Position(1, 5))))])]) == [];
    assert [] + [ListFrame(Position(1, 1), [LeafNode("abcd", Some(Region(Position(1, 2), Position(1, 5))))])] == [ListFrame(Position(1, 1), [LeafNode("abcd", Some(Region(Position(1, 2), Position(1, 5))))])];
  }

  lemma UnquotedValuesInListPush6()
    ensures ContainerPush(NullNode, [ListFrame(Position(1, 1), [LeafNode("abcd", Some(Region(Position(1, 2), Position(1, 5))))])], WhiteSpace, ' ', Position(1, 6)) == Running(NullNode, [ListFrame(Position(1, 1), [LeafNode("abcd", Some(Region(Position(1, 2), Position(1, 5))))])], None)
  {
    assert Below([ListFrame(Position(1, 1), [])]) == [];
    assert Below([ListFrame(Position(1, 1), [LeafNode("abcd", Some(Region(Position(1, 2), Position(1, 5))))])]) == [];
    assert [] + [ListFrame(Position(1, 1), [LeafNode("abcd", Some(Region(Position(1, 2), Position(1, 5))))])] == [ListFrame(Position(1, 1), [LeafNode("abcd", Some(Region(Position(1, 2), Position(1, 5))))])];
  }

  lemma UnquotedValuesInListStep6()
    ensures Step(Running(NullNode, [ListFrame(Position(1, 1), [])], Some(Unquoted(Position(1, 2), Position(1, 5), "abcd"))), ' ', Position(1, 6)) == Running(NullNode, [ListFrame(Position(1, 1), [LeafNode("abcd", Some(Region(Position(1, 2), Position(1, 5))))])], None)
  {
    assert Classify(' ' as int) == WhiteSpace;
    StepEndsUnquoted(NullNode, [ListFrame(Position(1, 1), [])], Position(1, 2), Position(1, 5), "abcd", ' ', Position(1, 6));
    UnquotedValuesInListDeliver6();
    UnquotedValuesInListPush6();
  }

  lemma UnquotedValuesInListDeliver11a()
    ensures Deliver(NullNode, [ListFrame(Position(1, 1), [LeafNode("abcd", Some(Region(Position(1, 2), Position(1, 5))))])], LeafNode("efgh", Some(Region(Position(1, 7), Position(1, 10))))) == (NullNode, [ListFrame(Position(1, 1), [LeafNode("abcd", Some(Region(Position(1, 2), Position(1, 5)))), LeafNode("efgh", Some(Region(Position(1, 7), Position(1, 10))))])])
  {
    assert [LeafNode("abcd", Some(Region(Position(1, 2), Position(1, 5))))] + [LeafNode("efgh", Some(Region(Position(1, 7), Position(1, 10))))] == [LeafNode("abcd", Some(Region(Position(1, 2), Position(1, 5)))), LeafNode("efgh", Some(Region(Position(1, 7), Position(1, 10))))];
    assert Below([ListFrame(Position(1, 1), [LeafNode("abcd", Some(Region(Position(1, 2), Position(1, 5))))])]) == [];
    assert [] + [ListFrame(Position(1, 1), [LeafNode("abcd", Some(Region(Position(1, 2), Position(1, 5))))])] == [ListFrame(Position(1, 1), [LeafNode("abcd", Some(Region(Position(1, 2), Position(1, 5))))])];
    assert Below([ListFrame(Position(1, 1), [LeafNode("abcd", Some(Region(Position(1, 2), Position(1, 5)))), LeafNode("efgh", Some(Region(Position(1, 7), Position(1, 10))))])]) == [];
    assert [] + [ListFrame(Position(1, 1), [LeafNode("abcd", Some(Region(Position(1, 2), Position(1, 5)))), LeafNode("efgh", Some(Region(Position(1, 7), Position(1, 10))))])] == [ListFrame(Position(1, 1), [LeafNode("abcd", Some(Region(Position(1, 2), Position(1, 5)))), LeafNode("efgh", Some(Region(Position(1, 7), Position(1, 10))))])];
  }

  lemma UnquotedValuesInListDeliver11b()
    ensures Deliver(NullNode, [], ListNode([LeafNode("abcd", Some(Region(Position(1, 2), Position(1, 5)))), LeafNode("efgh", Some(Region(Position(1, 7), Position(1, 10))))], Some(Region(Position(1, 1), Position(1, 11))))) == (ListNode([LeafNode("abcd", Some(Region(Position(1, 2), Position(1, 5)))), LeafNode("efgh", Some(Region(Position(1, 7), Position(1, 10))))], Some(Region(Position(1, 1), Position(1, 11)))), [])
  {
    assert [LeafNode("abcd", Some(Region(Position(1, 2), Position(1, 5))))] + [LeafNode("efgh", Some(Region(Position(1, 7), Position(1, 10))))] == [LeafNode("abcd", Some(Region(Position(1, 2), Position(1, 5)))), LeafNode("efgh", Some(Region(Position(1, 7), Position(1, 10))))];
    assert Below([ListFrame(Position(1, 1), [LeafNode("abcd", Some(Region(Position(1, 2), Position(1, 5))))])]) == [];
    assert [] + [ListFrame(Position(1, 1), [LeafNode("abcd", Some(Region(Position(1, 2), Position(1, 5))))])] == [ListFrame(Position(1, 1), [LeafNode("abcd", Some(Region(Position(1, 2), Position(1, 5))))])];
    assert Below([ListFrame(Position(1, 1), [LeafNode("abcd", Some(Region(Position(1, 2), Position(1, 5)))), LeafNode("efgh", Some(Region(Position(1, 7), Position(1, 10))))])]) == [];
    assert [] + [ListFrame(Position(1, 1), [LeafNode("abcd", Some(Region(Position(1, 2), Position(1, 5)))), LeafNode("efgh", Some(Region(Position(1, 7), Position(1, 10))))])] == [ListFrame(Position(1, 1), [LeafNode("abcd", Some(Region(Position(1, 2), Position(1, 5)))), LeafNode("efgh", Some(Region(Position(1, 7), Position(1, 10))))])];
  }

  lemma UnquotedValuesInListPush11()
    ensures ContainerPush(NullNode, [ListFrame(Position(1, 1), [LeafNode("abcd", Some(Region(Position(1, 2), Position(1, 5)))), LeafNode("efgh", Some(Region(Position(1, 7), Position(1, 10))))])], CloseList, ']', Position(1, 11)) == Running(ListNode([LeafNode("abcd", Some(Region(Position(1, 2), Position(1, 5)))), LeafNode("efgh", Some(Region(Position(1, 7), Position(1, 10))))], Some(Region(Position(1, 1), Position(1, 11)))), [], None)
  {
    assert Below([ListFrame(Position(1, 1), [LeafNode("abcd", Some(Region(Position(1, 2), Position(1, 5))))])]) == [];
    assert Below([ListFrame(Position(1, 1), [LeafNode("abcd", Some(Region(Position(1, 2), Position(1, 5)))), LeafNode("efgh", Some(Region(Position(1, 7), Position(1, 10))))])]) == [];
    UnquotedValuesInListDeliver11b();
  }

  lemma UnquotedValuesInListStep11()
    ensures Step(Running(NullNode, [ListFrame(Position(1, 1), [LeafNode("abcd", Some(Region(Position(1, 2), Position(1, 5))))])], Some(Unquoted(Position(1, 7), Position(1, 10), "efgh"))), ']', Position(1, 11)) == Running(ListNode([LeafNode("abcd", Some(Region(Position(1, 2), Position(1, 5)))), LeafNode("efgh", Some(Region(Position(1, 7), Position(1, 10))))], Some(Region(Position(1, 1), Position(1, 11)))), [], None)
  {
    assert Classify(']' as int) == CloseList;
    StepEndsUnquoted(NullNode, [ListFrame(Position(1, 1), [LeafNode("abcd", Some(Region(Position(1, 2), Position(1, 5))))])], Position(1, 7), Position(1, 10), "efgh", ']', Position(1, 11));
    UnquotedValuesInListDeliver11a();
    UnquotedValuesInListPush11();
  }

  /** A quoted leaf is anchored from quote to quote; the pipe makes the next quote part of the text. */
  lemma QuotedEscapedValueInList()
    ensures Decode("[\"ab|\"cd\"]") == Ok(ListNode([LeafNode("ab\"cd", Some(Region(Position(1, 2), Position(1, 9))))], Some(Region(Position(1, 1), Position(1, 10)))))
  {
    QuotedEscapedValueInListPrefix10();
  }

  // The machine and cursor after each prefix of the document.

  lemma QuotedEscapedValueInListPrefix1()
    ensures Run("[") == (Running(NullNode, [ListFrame(Position(1, 1), [])], None), Position(1, 1))
  {
    assert Step(Running(NullNode, [], None), '[', Position(1, 1)) == Running(NullNode, [ListFrame(Position(1, 1), [])], None) by {
      assert [] + [ListFrame(Position(1, 1), [])] == [ListFrame(Position(1, 1), [])];
    }
    assert Run("") == (Initial, Start);
    RunSnoc("", '[');
    assert "" + ['['] == "[";
  }

  lemma QuotedEscapedValueInListPrefix2()
    ensures Run("[\"") == (Running(NullNode, [ListFrame(Position(1, 1), [])], Some(Quoted(Position(1, 2), "", false))), Position(1, 2))
  {
    assert Step(Running(NullNode, [ListFrame(Position(1, 1), [])], None), '"', Position(1, 2)) == Running(NullNode, [ListFrame(Position(1, 1), [])], Some(Quoted(Position(1, 2), "", false))) by {
      assert Below([ListFrame(Position(1, 1), [])]) == [];
    }
    QuotedEscapedValueInListPrefix1();
    RunSnoc("[", '"');
    assert "[" + ['"'] == "[\"";
  }

  lemma QuotedEscapedValueInListPrefix3()
    ensures Run("[\"a") == (Running(NullNode, [ListFrame(Position(1, 1), [])], Some(Quoted(Position(1, 2), "a", false))), Position(1, 3))
  {
    assert Step(Running(NullNode, [ListFrame(Position(1, 1), [])], Some(Quoted(Position(1, 2), "", false))), 'a', Position(1, 3)) == Running(NullNode, [ListFrame(Position(1, 1), [])], Some(Quoted(Position(1, 2), "a", false))) by {
      QuotedAppends(NullNode, [ListFrame(Position(1, 1), [])], Position(1, 2), "", 'a', Position(1, 3));
      assert "" + ['a'] == "a";
    }
    QuotedEscapedValueInListPrefix2();
    RunSnoc("[\"", 'a');
    assert "[\"" + ['a'] == "[\"a";
  }

  lemma QuotedEscapedValueInListPrefix4()
    ensures Run("[\"ab") == (Running(NullNode, [ListFrame(Position(1, 1), [])], Some(Quoted(Position(1, 2), "ab", false))), Position(1, 4))
  {
    assert Step(Running(NullNode, [ListFrame(Position(1, 1), [])], Some(Quoted(Position(1, 2), "a", false))), 'b', Position(1, 4)) == Running(NullNode, [ListFrame(Position(1, 1), [])], Some(Quoted(Position(1, 2), "ab", false))) by {
      QuotedAppends(NullNode, [ListFrame(Position(1, 1), [])], Position(1, 2), "a", 'b', Position(1, 4));
      assert "a" + ['b'] == "ab";
    }
    QuotedEscapedValueInListPrefix3();
    RunSnoc("[\"a", 'b');
    assert "[\"a" + ['b'] == "[\"ab";
  }

  lemma QuotedEscapedValueInListPrefix5()
    ensures Run("[\"ab|") == (Running(NullNode, [ListFrame(Position(1, 1), [])], Some(Quoted(Position(1, 2), "ab", true))), Position(1, 5))
  {
    assert Step(Running(NullNode, [ListFrame(Position(1, 1), [])], Some(Quoted(Position(1, 2), "ab", false))), '|', Position(1, 5)) == Running(NullNode, [ListFrame(Position(1, 1), [])], Some(Quoted(Position(1, 2), "ab", true))) by {
      EscapeStarts(NullNode, [ListFrame(Position(1, 1), [])], Position(1, 2), "ab", Position(1, 5));
    }
    QuotedEscapedValueInListPrefix4();
    RunSnoc("[\"ab", '|');
    assert "[\"ab" + ['|'] == "[\"ab|";
  }

  lemma QuotedEscapedValueInListPrefix6()
    ensures Run("[\"ab|\"") == (Running(NullNode, [ListFrame(Position(1, 1), [])], Some(Quoted(Position(1, 2), "ab\"", false))), Position(1, 6))
  {
    assert Step(Running(NullNode, [ListFrame(Position(1, 1), [])], Some(Quoted(Position(1, 2), "ab", true))), '"', Position(1, 6)) == Running(NullNode, [ListFrame(Position(1, 1), [])], Some(Quoted(Position(1, 2), "ab\"", false))) by {
      EscapedIsLiteral(NullNode, [ListFrame(Position(1, 1), [])], Position(1, 2), "ab", '"', Position(1, 6));
      assert "ab" + ['"'] == "ab\"";
    }
    QuotedEscapedValueInListPrefix5();
    RunSnoc("[\"ab|", '"');
    assert "[\"ab|" + ['"'] == "[\"ab|\"";
  }

  lemma QuotedEscapedValueInListPrefix7()
    ensures Run("[\"ab|\"c") == (Running(NullNode, [ListFrame(Position(1, 1), [])], Some(Quoted(Position(1, 2), "ab\"c", false))), Position(1, 7))
  {
    assert Step(Running(NullNode, [ListFrame(Position(1, 1), [])], Some(Quoted(Position(1, 2), "ab\"", false))), 'c', Position(1, 7)) == Running(NullNode, [ListFrame(Position(1, 1), [])], Some(Quoted(Position(1, 2), "ab\"c", false))) by {
      QuotedAppends(NullNode, [ListFrame(Position(1, 1), [])], Position(1, 2), "ab\"", 'c', Position(1, 7));
      assert "ab\"" + ['c'] == "ab\"c";
    }
    QuotedEscapedValueInListPrefix6();
    RunSnoc("[\"ab|\"", 'c');
    assert "[\"ab|\"" + ['c'] == "[\"ab|\"c";
  }

  lemma QuotedEscapedValueInListPrefix8()
    ensures Run("[\"ab|\"cd") == (Running(NullNode, [ListFrame(Position(1, 1), [])], Some(Quoted(Position(1, 2), "ab\"cd", false))), Position(1, 8))
  {
    assert Step(Running(NullNode, [ListFrame(Position(1, 1), [])], Some(Quoted(Position(1, 2), "ab\"c", false))), 'd', Position(1, 8)) == Running(NullNode, [ListFrame(Position(1, 1), [])], Some(Quoted(Position(1, 2), "ab\"cd", false))) by {
      QuotedAppends(NullNode, [ListFrame(Position(1, 1), [])], Position(1, 2), "ab\"c", 'd', Position(1, 8));
      assert "ab\"c" + ['d'] == "ab\"cd";
    }
    QuotedEscapedValueInListPrefix7();
    RunSnoc("[\"ab|\"c", 'd');
    assert "[\"ab|\"c" + ['d'] == "[\"ab|\"cd";
  }

  lemma QuotedEscapedValueInListPrefix9()
    ensures Run("[\"ab|\"cd\"") == (Running(NullNode, [ListFrame(Position(1, 1), [LeafNode("ab\"cd", Some(Region(Position(1, 2), Position(1, 9))))])], None), Position(1, 9))
  {
    QuotedEscapedValueInListStep9();
    QuotedEscapedValueInListPrefix8();
    RunSnoc("[\"ab|\"cd", '"');
    assert "[\"ab|\"cd" + ['"'] == "[\"ab|\"cd\"";
  }

  lemma QuotedEscapedValueInListPrefix10()
    ensures Run("[\"ab|\"cd\"]") == (Running(ListNode([LeafNode("ab\"cd", Some(Region(Position(1, 2), Position(1, 9))))], Some(Region(Position(1, 1), Position(1, 10)))), [], None), Position(1, 10))
  {
    assert Step(Running(NullNode, [ListFrame(Position(1, 1), [LeafNode("ab\"cd", Some(Region(Position(1, 2), Position(1, 9))))])], None), ']', Position(1, 10)) == Running(ListNode([LeafNode("ab\"cd", Some(Region(Position(1, 2), Position(1, 9))))], Some(Region(Position(1, 1), Position(1, 10)))), [], None) by {
      assert Below([ListFrame(Position(1, 1), [LeafNode("ab\"cd", Some(Region(Position(1, 2), Position(1, 9))))])]) == [];
      QuotedEscapedValueInListDeliver10();
    }
    QuotedEscapedValueInListPrefix9();
    RunSnoc("[\"ab|\"cd\"", ']');
    assert "[\"ab|\"cd\"" + [']'] == "[\"ab|\"cd\"]";
  }

  lemma QuotedEscapedValueInListDeliver9()
    ensures Deliver(NullNode, [ListFrame(Position(1, 1), [])], LeafNode("ab\"cd", Some(Region(Position(1, 2), Position(1, 9))))) == (NullNode, [ListFrame(Position(1, 1), [LeafNode("ab\"cd", Some(Region(Position(1, 2), Position(1, 9))))])])
  {
    assert [] + [LeafNode("ab\"cd", Some(Region(Position(1, 2), Position(1, 9))))] == [LeafNode("ab\"cd", Some(Region(Position(1, 2), Position(1, 9))))];
    assert Below([ListFrame(Position(1, 1), [])]) == [];
    assert [] + [ListFrame(Position(1, 1), [])] == [ListFrame(Position(1, 1), [])];
    assert Below([ListFrame(Position(1, 1), [LeafNode("ab\"cd", Some(Region(Position(1, 2), Position(1, 9))))])]) == [];
    assert [] + [ListFrame(Position(1, 1), [LeafNode("ab\"cd", Some(Region(Position(1, 2), Position(1, 9))))])] == [ListFrame(Position(1, 1), [LeafNode("ab\"cd", Some(Region(Position(1, 2), Position(1, 9))))])];
  }

  lemma QuotedEscapedValueInListStep9()
    ensures Step(Running(NullNode, [ListFrame(Position(1, 1), [])], Some(Quoted(Position(1, 2), "ab\"cd", false))), '"', Position(1, 9)) == Running(NullNode, [ListFrame(Position(1, 1), [LeafNode("ab\"cd", Some(Region(Position(1, 2), Position(1, 9))))])], None)
  {
    QuoteClosesLeaf(NullNode, [ListFrame(Position(1, 1), [])], Position(1, 2), "ab\"cd", Position(1, 9));
    QuotedEscapedValueInListDeliver9();
  }

  lemma QuotedEscapedValueInListDeliver10()
    ensures Deliver(NullNode, [], ListNode([LeafNode("ab\"cd", Some(Region(Position(1, 2), Position(1, 9))))], Some(Region(Position(1, 1), Position(1, 10))))) == (ListNode([LeafNode("ab\"cd", Some(Region(Position(1, 2), Position(1, 9))))], Some(Region(Position(1, 1), Position(1, 10)))), [])
  {

  }

  /** Fields are stored under their names in the order they appear; whitespace may precede the assignment. */
  lemma UnquotedValuesInStruct()
    ensures Decode("(a=1 b =2)") == Ok(StructNode(map["a" := LeafNode("1", Some(Region(Position(1, 4), Position(1, 4)))), "b" := LeafNode("2", Some(Region(Position(1, 9), Position(1, 9))))], ["a", "b"], Some(Region(Position(1, 1), Position(1, 10)))))
  {
    UnquotedValuesInStructPrefix10();
  }

  // The machine and cursor after each prefix of the document.

  lemma UnquotedValuesInStructPrefix1()
    ensures Run("(") == (Running(NullNode, [StructFrame(Position(1, 1), map[], [], "", AwaitField)], None), Position(1, 1))
  {
    assert Step(Running(NullNode, [], None), '(', Position(1, 1)) == Running(NullNode, [StructFrame(Position(1, 1), map[], [], "", AwaitField)], None) by {
      assert [] + [StructFrame(Position(1, 1), map[], [], "", AwaitField)] == [StructFrame(Position(1, 1), map[], [], "", AwaitField)];
    }
    assert Run("") == (Initial, Start);
    RunSnoc("", '(');
    assert "" + ['('] == "(";
  }

  lemma UnquotedValuesInStructPrefix2()
    ensures Run("(a") == (Running(NullNode, [StructFrame(Position(1, 1), map[], [], "a", FieldName)], None), Position(1, 2))
  {
    assert Step(Running(NullNode, [StructFrame(Position(1, 1), map[], [], "", AwaitField)], None), 'a', Position(1, 2)) == Running(NullNode, [StructFrame(Position(1, 1), map[], [], "a", FieldName)], None) by {
      assert Below([StructFrame(Position(1, 1), map[], [], "", AwaitField)]) == [];
      assert [] + [StructFrame(Position(1, 1), map[], [], "a", FieldName)] == [StructFrame(Position(1, 1), map[], [], "a", FieldName)];
      assert "" + ['a'] == "a";
    }
    UnquotedValuesInStructPrefix1();
    RunSnoc("(", 'a');
    assert "(" + ['a'] == "(a";
  }

  lemma UnquotedValuesInStructPrefix3()
    ensures Run("(a=") == (Running(NullNode, [StructFrame(Position(1, 1), map[], [], "a", PostAssign)], None), Position(1, 3))
  {
    assert Step(Running(NullNode, [StructFrame(Position(1, 1), map[], [], "a", FieldName)], None), '=', Position(1, 3)) == Running(NullNode, [StructFrame(Position(1, 1), map[], [], "a", PostAssign)], None) by {
      assert Below([StructFrame(Position(1, 1), map[], [], "a", FieldName)]) == [];
      assert [] + [StructFrame(Position(1, 1), map[], [], "a", PostAssign)] == [StructFrame(Position(1, 1), map[], [], "a", PostAssign)];
    }
    UnquotedValuesInStructPrefix2();
    RunSnoc("(a", '=');
    assert "(a" + ['='] == "(a=";
  }

  lemma UnquotedValuesInStructPrefix4()
    ensures Run("(a=1") == (Running(NullNode, [StructFrame(Position(1, 1), map[], [], "a", PostAssign)], Some(Unquoted(Position(1, 4), Position(1, 4), "1"))), Position(1, 4))
  {
    assert Step(Running(NullNode, [StructFrame(Position(1, 1), map[], [], "a", PostAssign)], None), '1', Position(1, 4)) == Running(NullNode, [StructFrame(Position(1, 1), map[], [], "a", PostAssign)], Some(Unquoted(Position(1, 4), Position(1, 4), "1"))) by {
      assert Below([StructFrame(Position(1, 1), map[], [], "a", PostAssign)]) == [];
    }
    UnquotedValuesInStructPrefix3();
    RunSnoc("(a=", '1');
    assert "(a=" + ['1'] == "(a=1";
  }

  lemma UnquotedValuesInStructPrefix5()
    ensures Run("(a=1 ") == (Running(NullNode, [StructFrame(Position(1, 1), map["a" := LeafNode("1", Some(Region(Position(1, 4), Position(1, 4))))], ["a"], "", AwaitField)], None), Position(1, 5))
  {
    UnquotedValuesInStructStep5();
    UnquotedValuesInStructPrefix4();
    RunSnoc("(a=1", ' ');
    assert "(a=1" + [' '] == "(a=1 ";
  }

  lemma UnquotedValuesInStructPrefix6()
    ensures Run("(a=1 b") == (Running(NullNode, [StructFrame(Position(1, 1), map["a" := LeafNode("1", Some(Region(Position(1, 4), Position(1, 4))))], ["a"], "b", FieldName)], None), Position(1, 6))
  {
    assert Step(Running(NullNode, [StructFrame(Position(1, 1), map["a" := LeafNode("1", Some(Region(Position(1, 4), Position(1, 4))))], ["a"], "", AwaitField)], None), 'b', Position(1, 6)) == Running(NullNode, [StructFrame(Position(1, 1), map["a" := LeafNode("1", Some(Region(Position(1, 4), Position(1, 4))))], ["a"], "b", FieldName)], None) by {
      assert Below([StructFrame(Position(1, 1), map["a" := LeafNode("1", Some(Region(Position(1, 4), Position(1, 4))))], ["a"], "", AwaitField)]) == [];
      assert [] + [StructFrame(Position(1, 1), map["a" := LeafNode("1", Some(Region(Position(1, 4), Position(1, 4))))], ["a"], "b", FieldName)] == [StructFrame(Position(1, 1), map["a" := LeafNode("1", Some(Region(Position(1, 4), Position(1, 4))))], ["a"], "b", FieldName)];
      assert "" + ['b'] == "b";
    }
    UnquotedValuesInStructPrefix5();
    RunSnoc("(a=1 ", 'b');
    assert "(a=1 " + ['b'] == "(a=1 b";
  }

  lemma UnquotedValuesInStructPrefix7()
    ensures Run("(a=1 b ") == (Running(NullNode, [StructFrame(Position(1, 1), map["a" := LeafNode("1", Some(Region(Position(1, 4), Position(1, 4))))], ["a"], "b", PreAssign)], None), Position(1, 7))
  {
    assert Step(Running(NullNode, [StructFrame(Position(1, 1), map["a" := LeafNode("1", Some(Region(Position(1, 4), Position(1, 4))))], ["a"], "b", FieldName)], None), ' ', Position(1, 7)) == Running(NullNode, [StructFrame(Position(1, 1), map["a" := LeafNode("1", Some(Region(Position(1, 4), Position(1, 4))))], ["a"], "b", PreAssign)], None) by {
      assert Below([StructFrame(Position(1, 1), map["a" := LeafNode("1", Some(Region(Position(1, 4), Position(1, 4))))], ["a"], "b", FieldName)]) == [];
      assert [] + [StructFrame(Position(1, 1), map["a" := LeafNode("1", Some(Region(Position(1, 4), Position(1, 4))))], ["a"], "b", PreAssign)] == [StructFrame(Position(1, 1), map["a" := LeafNode("1", Some(Region(Position(1, 4), Position(1, 4))))], ["a"], "b", PreAssign)];
    }
    UnquotedValuesInStructPrefix6();
    RunSnoc("(a=1 b", ' ');
    assert "(a=1 b" + [' '] == "(a=1 b ";
  }

  lemma UnquotedValuesInStructPrefix8()
    ensures Run("(a=1 b =") == (Running(NullNode, [StructFrame(Position(1, 1), map["a" := LeafNode("1", Some(Region(Position(1, 4), Position(1, 4))))], ["a"], "b", PostAssign)], None), Position(1, 8))
  {
    assert Step(Running(NullNode, [StructFrame(Position(1, 1), map["a" := LeafNode("1", Some(Region(Position(1, 4), Position(1, 4))))], ["a"], "b", PreAssign)], None), '=', Position(1, 8)) == Running(NullNode, [StructFrame(Position(1, 1), map["a" := LeafNode("1", Some(Region(Position(1, 4), Position(1, 4))))], ["a"], "b", PostAssign)], None) by {
      assert Below([StructFrame(Position(1, 1), map["a" := LeafNode("1", Some(Region(Position(1, 4), Position(1, 4))))], ["a"], "b", PreAssign)]) == [];
      assert [] + [StructFrame(Position(1, 1), map["a" := LeafNode("1", Some(Region(Position(1, 4), Position(1, 4))))], ["a"], "b", PostAssign)] == [StructFrame(Position(1, 1), map["a" := LeafNode("1", Some(Region(Position(1, 4), Position(1, 4))))], ["a"], "b", PostAssign)];
    }
    UnquotedValuesInStructPrefix7();
    RunSnoc("(a=1 b ", '=');
    assert "(a=1 b " + ['='] == "(a=1 b =";
  }

  lemma UnquotedValuesInStructPrefix9()
    ensures Run("(a=1 b =2") == (Running(NullNode, [StructFrame(Position(1, 1), map["a" := LeafNode("1", Some(Region(Position(1, 4), Position(1, 4))))], ["a"], "b", PostAssign)], Some(Unquoted(Position(1, 9), Position(1, 9), "2"))), Position(1, 9))
  {
    assert Step(Running(NullNode, [StructFrame(Position(1, 1), map["a" := LeafNode("1", Some(Region(Position(1, 4), Position(1, 4))))], ["a"], "b", PostAssign)], None), '2', Position(1, 9)) == Running(NullNode, [StructFrame(Position(1, 1), map["a" := LeafNode("1", Some(Region(Position(1, 4), Position(1, 4))))], ["a"], "b", PostAssign)], Some(Unquoted(Position(1, 9), Position(1, 9), "2"))) by {
      assert Below([StructFrame(Position(1, 1), map["a" := LeafNode("1", Some(Region(Position(1, 4), Position(1, 4))))], ["a"], "b", PostAssign)]) == [];
    }
    UnquotedValuesInStructPrefix8();
    RunSnoc("(a=1 b =", '2');
    assert "(a=1 b =" + ['2'] == "(a=1 b =2";
  }

  lemma UnquotedValuesInStructPrefix10()
    ensures Run("(a=1 b =2)") == (Running(StructNode(map["a" := LeafNode("1", Some(Region(Position(1, 4), Position(1, 4)))), "b" := LeafNode("2", Some(Region(Position(1, 9), Position(1, 9))))], ["a", "b"], Some(Region(Position(1, 1), Position(1, 10)))), [], None), Position(1, 10))
  {
    UnquotedValuesInStructStep10();
    UnquotedValuesInStructPrefix9();
    RunSnoc("(a=1 b =2", ')');
    assert "(a=1 b =2" + [')'] == "(a=1 b =2)";
  }

  lemma UnquotedValuesInStructDeliver5()
    ensures Deliver(NullNode, [StructFrame(Position(1, 1), map[], [], "a", PostAssign)], LeafNode("1", Some(Region(Position(1, 4), Position(1, 4))))) == (NullNode, [StructFrame(Position(1, 1), map["a" := LeafNode("1", Some(Region(Position(1, 4), Position(1, 4))))], ["a"], "", AwaitField)])
  {
    assert [] + ["a"] == ["a"];
    assert Put(map[], [], "a", LeafNode("1", Some(Region(Position(1, 4), Position(1, 4))))).1 == ["a"];
    assert Put(map[], [], "a", LeafNode("1", Some(Region(Position(1, 4), Position(1, 4))))).0 == map["a" := LeafNode("1", Some(Region(Position(1, 4), Position(1, 4))))];
    assert Below([StructFrame(Position(1, 1), map[], [], "a", PostAssign)]) == [];
    assert [] + [StructFrame(Position(1, 1), map[], [], "a", PostAssign)] == [StructFrame(Position(1, 1), map[], [], "a", PostAssign)];
    assert Below([StructFrame(Position(1, 1), map["a" := LeafNode("1", Some(Region(Position(1, 4), Position(1, 4))))], ["a"], "", AwaitField)]) == [];
    assert [] + [StructFrame(Position(1, 1), map["a" := LeafNode("1", Some(Region(Position(1, 4), Position(1, 4))))], ["a"], "", AwaitField)] == [StructFrame(Position(1, 1), map["a" := LeafNode("1", Some(Region(Position(1, 4), Position(1, 4))))], ["a"], "", AwaitField)];
  }

  lemma UnquotedValuesInStructPush5()
    ensures ContainerPush(NullNode, [StructFrame(Position(1, 1), map["a" := LeafNode("1", Some(Region(Position(1, 4), Position(1, 4))))], ["a"], "", AwaitField)], WhiteSpace, ' ', Position(1, 5)) == Running(NullNode, [StructFrame(Position(1, 1), map["a" := LeafNode("1", Some(Region(Position(1, 4), Position(1, 4))))], ["a"], "", AwaitField)], None)
  {
    assert Below([StructFrame(Position(1, 1), map[], [], "a", PostAssign)]) == [];
    assert Below([StructFrame(Position(1, 1), map["a" := LeafNode("1", Some(Region(Position(1, 4), Position(1, 4))))], ["a"], "", AwaitField)]) == [];
    assert [] + [StructFrame(Position(1, 1), map["a" := LeafNode("1", Some(Region(Position(1, 4), Position(1, 4))))], ["a"], "", AwaitField)] == [StructFrame(Position(1, 1), map["a" := LeafNode("1", Some(Region(Position(1, 4), Position(1, 4))))], ["a"], "", AwaitField)];
  }

  lemma UnquotedValuesInStructStep5()
    ensures Step(Running(NullNode, [StructFrame(Position(1, 1), map[], [], "a", PostAssign)], Some(Unquoted(Position(1, 4), Position(1, 4), "1"))), ' ', Position(1, 5)) == Running(NullNode, [StructFrame(Position(1, 1), map["a" := LeafNode("1", Some(Region(Position(1, 4), Position(1, 4))))], ["a"], "", AwaitField)], None)
  {
    assert Classify(' ' as int) == WhiteSpace;
    StepEndsUnquoted(NullNode, [StructFrame(Position(1, 1), map[], [], "a", PostAssign)], Position(1, 4), Position(1, 4), "1", ' ', Position(1, 5));
    UnquotedValuesInStructDeliver5();
    UnquotedValuesInStructPush5();
  }

  lemma UnquotedValuesInStructDeliver10a()
    ensures Deliver(NullNode, [StructFrame(Position(1, 1), map["a" := LeafNode("1", Some(Region(Position(1, 4), Position(1, 4))))], ["a"], "b", PostAssign)], LeafNode("2", Some(Region(Position(1, 9), Position(1, 9))))) == (NullNode, [StructFrame(Position(1, 1), map["a" := LeafNode("1", Some(Region(Position(1, 4), Position(1, 4)))), "b" := LeafNode("2", Some(Region(Position(1, 9), Position(1, 9))))], ["a", "b"], "", AwaitField)])
  {
    assert ["a"] + ["b"] == ["a", "b"];
    assert Put(map["a" := LeafNode("1", Some(Region(Position(1, 4), Position(1, 4))))], ["a"], "b", LeafNode("2", Some(Region(Position(1, 9), Position(1, 9))))).1 == ["a", "b"];
    assert Put(map["a" := LeafNode("1", Some(Region(Position(1, 4), Position(1, 4))))], ["a"], "b", LeafNode("2", Some(Region(Position(1, 9), Position(1, 9))))).0 == map["a" := LeafNode("1", Some(Region(Position(1, 4), Position(1, 4)))), "b" := LeafNode("2", Some(Region(Position(1, 9), Position(1, 9))))];
    assert Below([StructFrame(Position(1, 1), map["a" := LeafNode("1", Some(Region(Position(1, 4), Position(1, 4))))], ["a"], "b", PostAssign)]) == [];
    assert [] + [StructFrame(Position(1, 1), map["a" := LeafNode("1", Some(Region(Position(1, 4), Position(1, 4))))], ["a"], "b", PostAssign)] == [StructFrame(Position(1, 1), map["a" := LeafNode("1", Some(Region(Position(1, 4), Position(1, 4))))], ["a"], "b", PostAssign)];
    assert Below([StructFrame(Position(1, 1), map["a" := LeafNode("1", Some(Region(Position(1, 4), Position(1, 4)))), "b" := LeafNode("2", Some(Region(Position(1, 9), Position(1, 9))))], ["a", "b"], "", AwaitField)]) == [];
    assert [] + [StructFrame(Position(1, 1), map["a" := LeafNode("1", Some(Region(Position(1, 4), Position(1, 4)))), "b" := LeafNode("2", Some(Region(Position(1, 9), Position(1, 9))))], ["a", "b"], "", AwaitField)] == [StructFrame(Position(1, 1), map["a" := LeafNode("1", Some(Region(Position(1, 4), Position(1, 4)))), "b" := LeafNode("2", Some(Region(Position(1, 9), Position(1, 9))))], ["a", "b"], "", AwaitField)];
  }

  lemma UnquotedValuesInStructDeliver10b()
    ensures Deliver(NullNode, [], StructNode(map["a" := LeafNode("1", Some(Region(Position(1, 4), Position(1, 4)))), "b" := LeafNode("2", Some(Region(Position(1, 9), Position(1, 9))))], ["a", "b"], Some(Region(Position(1, 1), Position(1, 10))))) == (StructNode(map["a" := LeafNode("1", Some(Region(Position(1, 4), Position(1, 4)))), "b" := LeafNode("2", Some(Region(Position(1, 9), Position(1, 9))))], ["a", "b"], Some(Region(Position(1, 1), Position(1, 10)))), [])
  {
    assert ["a"] + ["b"] == ["a", "b"];
    assert Put(map["a" := LeafNode("1", Some(Region(Position(1, 4), Position(1, 4))))], ["a"], "b", LeafNode("2", Some(Region(Position(1, 9), Position(1, 9))))).1 == ["a", "b"];
    assert Put(map["a" := LeafNode("1", Some(Region(Position(1, 4), Position(1, 4))))], ["a"], "b", LeafNode("2", Some(Region(Position(1, 9), Position(1, 9))))).0 == map["a" := LeafNode("1", Some(Region(Position(1, 4), Position(1, 4)))), "b" := LeafNode("2", Some(Region(Position(1, 9), Position(1, 9))))];
    assert Below([StructFrame(Position(1, 1), map["a" := LeafNode("1", Some(Region(Position(1, 4), Position(1, 4))))], ["a"], "b", PostAssign)]) == [];
    assert [] + [StructFrame(Position(1, 1), map["a" := LeafNode("1", Some(Region(Position(1, 4), Position(1, 4))))], ["a"], "b", PostAssign)] == [StructFrame(Position(1, 1), map["a" := LeafNode("1", Some(Region(Position(1, 4), Position(1, 4))))], ["a"], "b", PostAssign)];
    assert Below([StructFrame(Position(1, 1), map["a" := LeafNode("1", Some(Region(Position(1, 4), Position(1, 4)))), "b" := LeafNode("2", Some(Region(Position(1, 9), Position(1, 9))))], ["a", "b"], "", AwaitField)]) == [];
    assert [] + [StructFrame(Position(1, 1), map["a" := LeafNode("1", Some(Region(Position(1, 4), Position(1, 4)))), "b" := LeafNode("2", Some(Region(Position(1, 9), Position(1, 9))))], ["a", "b"], "", AwaitField)] == [StructFrame(Position(1, 1), map["a" := LeafNode("1", Some(Region(Position(1, 4), Position(1, 4)))), "b" := LeafNode("2", Some(Region(Position(1, 9), Position(1, 9))))], ["a", "b"], "", AwaitField)];
  }

  lemma UnquotedValuesInStructPush10()
    ensures ContainerPush(NullNode, [StructFrame(Position(1, 1), map["a" := LeafNode("1", Some(Region(Position(1, 4), Position(1, 4)))), "b" := LeafNode("2", Some(Region(Position(1, 9), Position(1, 9))))], ["a", "b"], "", AwaitField)], CloseStruct, ')', Position(1, 10)) == Running(StructNode(map["a" := LeafNode("1", Some(Region(Position(1, 4), Position(1, 4)))), "b" := LeafNode("2", Some(Region(Position(1, 9), Position(1, 9))))], ["a", "b"], Some(Region(Position(1, 1), Position(1, 10)))), [], None)
  {
    assert Below([StructFrame(Position(1, 1), map["a" := LeafNode("1", Some(Region(Position(1, 4), Position(1, 4))))], ["a"], "b", PostAssign)]) == [];
    assert Below([StructFrame(Position(1, 1), map["a" := LeafNode("1", Some(Region(Position(1, 4), Position(1, 4)))), "b" := LeafNode("2", Some(Region(Position(1, 9), Position(1, 9))))], ["a", "b"], "", AwaitField)]) == [];
    assert "b" !in map["a" := LeafNode("1", Some(Region(Position(1, 4), Position(1, 4))))];
    UnquotedValuesInStructDeliver10b();
  }

  lemma UnquotedValuesInStructStep10()
    ensures Step(Running(NullNode, [StructFrame(Position(1, 1), map["a" := LeafNode("1", Some(Region(Position(1, 4), Position(1, 4))))], ["a"], "b", PostAssign)], Some(Unquoted(Position(1, 9), Position(1, 9), "2"))), ')', Position(1, 10)) == Running(StructNode(map["a" := LeafNode("1", Some(Region(Position(1, 4), Position(1, 4)))), "b" := LeafNode("2", Some(Region(Position(1, 9), Position(1, 9))))], ["a", "b"], Some(Region(Position(1, 1), Position(1, 10)))), [], None)
  {
    assert Classify(')' as int) == CloseStruct;
    StepEndsUnquoted(NullNode, [StructFrame(Position(1, 1), map["a" := LeafNode("1", Some(Region(Position(1, 4), Position(1, 4))))], ["a"], "b", PostAssign)], Position(1, 9), Position(1, 9), "2", ')', Position(1, 10));
    UnquotedValuesInStructDeliver10a();
    UnquotedValuesInStructPush10();
  }

  /** A struct is anchored from its opening to its closing parenthesis, across lines. */
  lemma StructAcrossLines()
    ensures Decode("(\n )") == Ok(StructNode(map[], [], Some(Region(Position(1, 1), Position(2, 2)))))
  {
    StructAcrossLinesPrefix4();
  }

  // The machine and cursor after each prefix of the document.

  lemma StructAcrossLinesPrefix1()
    ensures Run("(") == (Running(NullNode, [StructFrame(Position(1, 1), map[], [], "", AwaitField)], None), Position(1, 1))
  {
    assert Step(Running(NullNode, [], None), '(', Position(1, 1)) == Running(NullNode, [StructFrame(Position(1, 1), map[], [], "", AwaitField)], None) by {
      assert [] + [StructFrame(Position(1, 1), map[], [], "", AwaitField)] == [StructFrame(Position(1, 1), map[], [], "", AwaitField)];
    }
    assert Run("") == (Initial, Start);
    RunSnoc("", '(');
    assert "" + ['('] == "(";
  }

  lemma StructAcrossLinesPrefix2()
    ensures Run("(\n") == (Running(NullNode, [StructFrame(Position(1, 1), map[], [], "", AwaitField)], None), Position(2, 0))
  {
    assert Step(Running(NullNode, [StructFrame(Position(1, 1), map[], [], "", AwaitField)], None), '\n', Position(2, 0)) == Running(NullNode, [StructFrame(Position(1, 1), map[], [], "", AwaitField)], None) by {
      assert Below([StructFrame(Position(1, 1), map[], [], "", AwaitField)]) == [];
    }
    StructAcrossLinesPrefix1();
    RunSnoc("(", '\n');
    assert "(" + ['\n'] == "(\n";
  }

  lemma StructAcrossLinesPrefix3()
    ensures Run("(\n ") == (Running(NullNode, [StructFrame(Position(1, 1), map[], [], "", AwaitField)], None), Position(2, 1))
  {
    assert Step(Running(NullNode, [StructFrame(Position(1, 1), map[], [], "", AwaitField)], None), ' ', Position(2, 1)) == Running(NullNode, [StructFrame(Position(1, 1), map[], [], "", AwaitField)], None) by {
      assert Below([StructFrame(Position(1, 1), map[], [], "", AwaitField)]) == [];
    }
    StructAcrossLinesPrefix2();
    RunSnoc("(\n", ' ');
    assert "(\n" + [' '] == "(\n ";
  }

  lemma StructAcrossLinesPrefix4()
    ensures Run("(\n )") == (Running(StructNode(map[], [], Some(Region(Position(1, 1), Position(2, 2)))), [], None), Position(2, 2))
  {
    assert Step(Running(NullNode, [StructFrame(Position(1, 1), map[], [], "", AwaitField)], None), ')', Position(2, 2)) == Running(StructNode(map[], [], Some(Region(Position(1, 1), Position(2, 2)))), [], None) by {
      assert Below([StructFrame(Position(1, 1), map[], [], "", AwaitField)]) == [];
      StructAcrossLinesDeliver4();
    }
    StructAcrossLinesPrefix3();
    RunSnoc("(\n ", ')');
    assert "(\n " + [')'] == "(\n )";
  }

  lemma StructAcrossLinesDeliver4()
    ensures Deliver(NullNode, [], StructNode(map[], [], Some(Region(Position(1, 1), Position(2, 2))))) == (StructNode(map[], [], Some(Region(Position(1, 1), Position(2, 2)))), [])
  {

  }

  /** A nested list is anchored by its own brackets and kept as the only item of the outer list. */
  lemma NestedEmptyList()
    ensures Decode("[[]]") == Ok(ListNode([ListNode([], Some(Region(Position(1, 2), Position(1, 3))))], Some(Region(Position(1, 1), Position(1, 4)))))
  {
    NestedEmptyListPrefix4();
  }

  // The machine and cursor after each prefix of the document.

  lemma NestedEmptyListPrefix1()
    ensures Run("[") == (Running(NullNode, [ListFrame(Position(1, 1), [])], None), Position(1, 1))
  {
    assert Step(Running(NullNode, [], None), '[', Position(1, 1)) == Running(NullNode, [ListFrame(Position(1, 1), [])], None) by {
      assert [] + [ListFrame(Position(1, 1), [])] == [ListFrame(Position(1, 1), [])];
    }
    assert Run("") == (Initial, Start);
    RunSnoc("", '[');
    assert "" + ['['] == "[";
  }

  lemma NestedEmptyListPrefix2()
    ensures Run("[[") == (Running(NullNode, [ListFrame(Position(1, 1), []), ListFrame(Position(1, 2), [])], None), Position(1, 2))
  {
    assert Step(Running(NullNode, [ListFrame(Position(1, 1), [])], None), '[', Position(1, 2)) == Running(NullNode, [ListFrame(Position(1, 1), []), ListFrame(Position(1, 2), [])], None) by {
      assert Below([ListFrame(Position(1, 1), [])]) == [];
      assert [ListFrame(Position(1, 1), [])] + [ListFrame(Position(1, 2), [])] == [ListFrame(Position(1, 1), []), ListFrame(Position(1, 2), [])];
    }
    NestedEmptyListPrefix1();
    RunSnoc("[", '[');
    assert "[" + ['['] == "[[";
  }

  lemma NestedEmptyListPrefix3()
    ensures Run("[[]") == (Running(NullNode, [ListFrame(Position(1, 1), [ListNode([], Some(Region(Position(1, 2), Position(1, 3))))])], None), Position(1, 3))
  {
    assert Step(Running(NullNode, [ListFrame(Position(1, 1), []), ListFrame(Position(1, 2), [])], None), ']', Position(1, 3)) == Running(NullNode, [ListFrame(Position(1, 1), [ListNode([], Some(Region(Position(1, 2), Position(1, 3))))])], None) by {
      assert Below([ListFrame(Position(1, 1), []), ListFrame(Position(1, 2), [])]) == [ListFrame(Position(1, 1), [])];
      assert Below([ListFrame(Position(1, 1), [])]) == [];
      assert [] + [ListFrame(Position(1, 1), [ListNode([], Some(Region(Position(1, 2), Position(1, 3))))])] == [ListFrame(Position(1, 1), [ListNode([], Some(Region(Position(1, 2), Position(1, 3))))])];
      NestedEmptyListDeliver3();
    }
    NestedEmptyListPrefix2();
    RunSnoc("[[", ']');
    assert "[[" + [']'] == "[[]";
  }

  lemma NestedEmptyListPrefix4()
    ensures Run("[[]]") == (Running(ListNode([ListNode([], Some(Region(Position(1, 2), Position(1, 3))))], Some(Region(Position(1, 1), Position(1, 4)))), [], None), Position(1, 4))
  {
    assert Step(Running(NullNode, [ListFrame(Position(1, 1), [ListNode([], Some(Region(Position(1, 2), Position(1, 3))))])], None), ']', Position(1, 4)) == Running(ListNode([ListNode([], Some(Region(Position(1, 2), Position(1, 3))))], Some(Region(Position(1, 1), Position(1, 4)))), [], None) by {
      assert Below([ListFrame(Position(1, 1), [ListNode([], Some(Region(Position(1, 2), Position(1, 3))))])]) == [];
      NestedEmptyListDeliver4();
    }
    NestedEmptyListPrefix3();
    RunSnoc("[[]", ']');
    assert "[[]" + [']'] == "[[]]";
  }

  lemma NestedEmptyListDeliver3()
    ensures Deliver(NullNode, [ListFrame(Position(1, 1), [])], ListNode([], Some(Region(Position(1, 2), Position(1, 3))))) == (NullNode, [ListFrame(Position(1, 1), [ListNode([], Some(Region(Position(1, 2), Position(1, 3))))])])
  {
    assert [] + [ListNode([], Some(Region(Position(1, 2), Position(1, 3))))] == [ListNode([], Some(Region(Position(1, 2), Position(1, 3))))];
    assert Below([ListFrame(Position(1, 1), [])]) == [];
    assert [] + [ListFrame(Position(1, 1), [])] == [ListFrame(Position(1, 1), [])];
    assert Below([ListFrame(Position(1, 1), [ListNode([], Some(Region(Position(1, 2), Position(1, 3))))])]) == [];
    assert [] + [ListFrame(Position(1, 1), [ListNode([], Some(Region(Position(1, 2), Position(1, 3))))])] == [ListFrame(Position(1, 1), [ListNode([], Some(Region(Position(1, 2), Position(1, 3))))])];
  }

  lemma NestedEmptyListDeliver4()
    ensures Deliver(NullNode, [], ListNode([ListNode([], Some(Region(Position(1, 2), Position(1, 3))))], Some(Region(Position(1, 1), Position(1, 4))))) == (ListNode([ListNode([], Some(Region(Position(1, 2), Position(1, 3))))], Some(Region(Position(1, 1), Position(1, 4)))), [])
  {

  }

  /** A quoted leaf is anchored from its opening to its closing quote, and the quotes are not part of the text. */
  lemma QuotedValueInList()
    ensures Decode("[\"abcd\"]") == Ok(ListNode([LeafNode("abcd", Some(Region(Position(1, 2), Position(1, 7))))], Some(Region(Position(1, 1), Position(1, 8)))))
  {
    QuotedValueInListPrefix8();
  }

  // The machine and cursor after each prefix of the document.

  lemma QuotedValueInListPrefix1()
    ensures Run("[") == (Running(NullNode, [ListFrame(Position(1, 1), [])], None), Position(1, 1))
  {
    assert Step(Running(NullNode, [], None), '[', Position(1, 1)) == Running(NullNode, [ListFrame(Position(1, 1), [])], None) by {
      assert [] + [ListFrame(Position(1, 1), [])] == [ListFrame(Position(1, 1), [])];
    }
    assert Run("") == (Initial, Start);
    RunSnoc("", '[');
    assert "" + ['['] == "[";
  }

  lemma QuotedValueInListPrefix2()
    ensures Run("[\"") == (Running(NullNode, [ListFrame(Position(1, 1), [])], Some(Quoted(Position(1, 2), "", false))), Position(1, 2))
  {
    assert Step(Running(NullNode, [ListFrame(Position(1, 1), [])], None), '"', Position(1, 2)) == Running(NullNode, [ListFrame(Position(1, 1), [])], Some(Quoted(Position(1, 2), "", false))) by {
      assert Below([ListFrame(Position(1, 1), [])]) == [];
    }
    QuotedValueInListPrefix1();
    RunSnoc("[", '"');
    assert "[" + ['"'] == "[\"";
  }

  lemma QuotedValueInListPrefix3()
    ensures Run("[\"a") == (Running(NullNode, [ListFrame(Position(1, 1), [])], Some(Quoted(Position(1, 2), "a", false))), Position(1, 3))
  {
    assert Step(Running(NullNode, [ListFrame(Position(1, 1), [])], Some(Quoted(Position(1, 2), "", false))), 'a', Position(1, 3)) == Running(NullNode, [ListFrame(Position(1, 1), [])], Some(Quoted(Position(1, 2), "a", false))) by {
      QuotedAppends(NullNode, [ListFrame(Position(1, 1), [])], Position(1, 2), "", 'a', Position(1, 3));
      assert "" + ['a'] == "a";
    }
    QuotedValueInListPrefix2();
    RunSnoc("[\"", 'a');
    assert "[\"" + ['a'] == "[\"a";
  }

  lemma QuotedValueInListPrefix4()
    ensures Run("[\"ab") == (Running(NullNode, [ListFrame(Position(1, 1), [])], Some(Quoted(Position(1, 2), "ab", false))), Position(1, 4))
  {
    assert Step(Running(NullNode, [ListFrame(Position(1, 1), [])], Some(Quoted(Position(1, 2), "a", false))), 'b', Position(1, 4)) == Running(NullNode, [ListFrame(Position(1, 1), [])], Some(Quoted(Position(1, 2), "ab", false))) by {
      QuotedAppends(NullNode, [ListFrame(Position(1, 1), [])], Position(1, 2), "a", 'b', Position(1, 4));
      assert "a" + ['b'] == "ab";
    }
    QuotedValueInListPrefix3();
    RunSnoc("[\"a", 'b');
    assert "[\"a" + ['b'] == "[\"ab";
  }

  lemma QuotedValueInListPrefix5()
    ensures Run("[\"abc") == (Running(NullNode, [ListFrame(Position(1, 1), [])], Some(Quoted(Position(1, 2), "abc", false))), Position(1, 5))
  {
    assert Step(Running(NullNode, [ListFrame(Position(1, 1), [])], Some(Quoted(Position(1, 2), "ab", false))), 'c', Position(1, 5)) == Running(NullNode, [ListFrame(Position(1, 1), [])], Some(Quoted(Position(1, 2), "abc", false))) by {
      QuotedAppends(NullNode, [ListFrame(Position(1, 1), [])], Position(1, 2), "ab", 'c', Position(1, 5));
      assert "ab" + ['c'] == "abc";
    }
    QuotedValueInListPrefix4();
    RunSnoc("[\"ab", 'c');
    assert "[\"ab" + ['c'] == "[\"abc";
  }

  lemma QuotedValueInListPrefix6()
    ensures Run("[\"abcd") == (Running(NullNode, [ListFrame(Position(1, 1), [])], Some(Quoted(Position(1, 2), "abcd", false))), Position(1, 6))
  {
    assert Step(Running(NullNode, [ListFrame(Position(1, 1), [])], Some(Quoted(Position(1, 2), "abc", false))), 'd', Position(1, 6)) == Running(NullNode, [ListFrame(Position(1, 1), [])], Some(Quoted(Position(1, 2), "abcd", false))) by {
      QuotedAppends(NullNode, [ListFrame(Position(1, 1), [])], Position(1, 2), "abc", 'd', Position(1, 6));
      assert "abc" + ['d'] == "abcd";
    }
    QuotedValueInListPrefix5();
    RunSnoc("[\"abc", 'd');
    assert "[\"abc" + ['d'] == "[\"abcd";
  }

  lemma QuotedValueInListPrefix7()
    ensures Run("[\"abcd\"") == (Running(NullNode, [ListFrame(Position(1, 1), [LeafNode("abcd", Some(Region(Position(1, 2), Position(1, 7))))])], None), Position(1, 7))
  {
    QuotedValueInListStep7();
    QuotedValueInListPrefix6();
    RunSnoc("[\"abcd", '"');
    assert "[\"abcd" + ['"'] == "[\"abcd\"";
  }

  lemma QuotedValueInListPrefix8()
    ensures Run("[\"abcd\"]") == (Running(ListNode([LeafNode("abcd", Some(Region(Position(1, 2), Position(1, 7))))], Some(Region(Position(1, 1), Position(1, 8)))), [], None), Position(1, 8))
  {
    assert Step(Running(NullNode, [ListFrame(Position(1, 1), [LeafNode("abcd", Some(Region(Position(1, 2), Position(1, 7))))])], None), ']', Position(1, 8)) == Running(ListNode([LeafNode("abcd", Some(Region(Position(1, 2), Position(1, 7))))], Some(Region(Position(1, 1), Position(1, 8)))), [], None) by {
      assert Below([ListFrame(Position(1, 1), [LeafNode("abcd", Some(Region(Position(1, 2), Position(1, 7))))])]) == [];
      QuotedValueInListDeliver8();
    }
    QuotedValueInListPrefix7();
    RunSnoc("[\"abcd\"", ']');
    assert "[\"abcd\"" + [']'] == "[\"abcd\"]";
  }

  lemma QuotedValueInListDeliver7()
    ensures Deliver(NullNode, [ListFrame(Position(1, 1), [])], LeafNode("abcd", Some(Region(Position(1, 2), Position(1, 7))))) == (NullNode, [ListFrame(Position(1, 1), [LeafNode("abcd", Some(Region(Position(1, 2), Position(1, 7))))])])
  {
    assert [] + [LeafNode("abcd", Some(Region(Position(1, 2), Position(1, 7))))] == [LeafNode("abcd", Some(Region(Position(1, 2), Position(1, 7))))];
    assert Below([ListFrame(Position(1, 1), [])]) == [];
    assert [] + [ListFrame(Position(1, 1), [])] == [ListFrame(Position(1, 1), [])];
    assert Below([ListFrame(Position(1, 1), [LeafNode("abcd", Some(Region(Position(1, 2), Position(1, 7))))])]) == [];
    assert [] + [ListFrame(Position(1, 1), [LeafNode("abcd", Some(Region(Position(1, 2), Position(1, 7))))])] == [ListFrame(Position(1, 1), [LeafNode("abcd", Some(Region(Position(1, 2), Position(1, 7))))])];
  }

  lemma QuotedValueInListStep7()
    ensures Step(Running(NullNode, [ListFrame(Position(1, 1), [])], Some(Quoted(Position(1, 2), "abcd", false))), '"', Position(1, 7)) == Running(NullNode, [ListFrame(Position(1, 1), [LeafNode("abcd", Some(Region(Position(1, 2), Position(1, 7))))])], None)
  {
    QuoteClosesLeaf(NullNode, [ListFrame(Position(1, 1), [])], Position(1, 2), "abcd", Position(1, 7));
    QuotedValueInListDeliver7();
  }

  lemma QuotedValueInListDeliver8()
    ensures Deliver(NullNode, [], ListNode([LeafNode("abcd", Some(Region(Position(1, 2), Position(1, 7))))], Some(Region(Position(1, 1), Position(1, 8))))) == (ListNode([LeafNode("abcd", Some(Region(Position(1, 2), Position(1, 7))))], Some(Region(Position(1, 1), Position(1, 8)))), [])
  {

  }

  /** A second top-level value replaces the first as the document value. */
  lemma LaterValueReplaces()
    ensures Decode("[]()") == Ok(StructNode(map[], [], Some(Region(Position(1, 3), Position(1, 4)))))
  {
    LaterValueReplacesPrefix4();
  }

  // The machine and cursor after each prefix of the document.

  lemma LaterValueReplacesPrefix1()
    ensures Run("[") == (Running(NullNode, [ListFrame(Position(1, 1), [])], None), Position(1, 1))
  {
    assert Step(Running(NullNode, [], None), '[', Position(1, 1)) == Running(NullNode, [ListFrame(Position(1, 1), [])], None) by {
      assert [] + [ListFrame(Position(1, 1), [])] == [ListFrame(Position(1, 1), [])];
    }
    assert Run("") == (Initial, Start);
    RunSnoc("", '[');
    assert "" + ['['] == "[";
  }

  lemma LaterValueReplacesPrefix2()
    ensures Run("[]") == (Running(ListNode([], Some(Region(Position(1, 1), Position(1, 2)))), [], None), Position(1, 2))
  {
    assert Step(Running(NullNode, [ListFrame(Position(1, 1), [])], None), ']', Position(1, 2)) == Running(ListNode([], Some(Region(Position(1, 1), Position(1, 2)))), [], None) by {
      assert Below([ListFrame(Position(1, 1), [])]) == [];
      LaterValueReplacesDeliver2();
    }
    LaterValueReplacesPrefix1();
    RunSnoc("[", ']');
    assert "[" + [']'] == "[]";
  }

  lemma LaterValueReplacesPrefix3()
    ensures Run("[](") == (Running(ListNode([], Some(Region(Position(1, 1), Position(1, 2)))), [StructFrame(Position(1, 3), map[], [], "", AwaitField)], None), Position(1, 3))
  {
    assert Step(Running(ListNode([], Some(Region(Position(1, 1), Position(1, 2)))), [], None), '(', Position(1, 3)) == Running(ListNode([], Some(Region(Position(1, 1), Position(1, 2)))), [StructFrame(Position(1, 3), map[], [], "", AwaitField)], None) by {
      assert [] + [StructFrame(Position(1, 3), map[], [], "", AwaitField)] == [StructFrame(Position(1, 3), map[], [], "", AwaitField)];
    }
    LaterValueReplacesPrefix2();
    RunSnoc("[]", '(');
    assert "[]" + ['('] == "[](";
  }

  lemma LaterValueReplacesPrefix4()
    ensures Run("[]()") == (Running(StructNode(map[], [], Some(Region(Position(1, 3), Position(1, 4)))), [], None), Position(1, 4))
  {
    assert Step(Running(ListNode([], Some(Region(Position(1, 1), Position(1, 2)))), [StructFrame(Position(1, 3), map[], [], "", AwaitField)], None), ')', Position(1, 4)) == Running(StructNode(map[], [], Some(Region(Position(1, 3), Position(1, 4)))), [], None) by {
      assert Below([StructFrame(Position(1, 3), map[], [], "", AwaitField)]) == [];
      LaterValueReplacesDeliver4();
    }
    LaterValueReplacesPrefix3();
    RunSnoc("[](", ')');
    assert "[](" + [')'] == "[]()";
  }

  lemma LaterValueReplacesDeliver2()
    ensures Deliver(NullNode, [], ListNode([], Some(Region(Position(1, 1), Position(1, 2))))) == (ListNode([], Some(Region(Position(1, 1), Position(1, 2)))), [])
  {

  }

  lemma LaterValueReplacesDeliver4()
    ensures Deliver(ListNode([], Some(Region(Position(1, 1), Position(1, 2)))), [], StructNode(map[], [], Some(Region(Position(1, 3), Position(1, 4))))) == (StructNode(map[], [], Some(Region(Position(1, 3), Position(1, 4)))), [])
  {

  }

  /** The root accepts only an opening bracket or whitespace. */
  lemma LeafAtRoot()
    ensures Decode("a") == Err(InvalidSyntax(Position(1, 1), ROOT_EXPECTED))
  {
    LeafAtRootPrefix1();
  }

  // The machine and cursor after each prefix of the document.

  lemma LeafAtRootPrefix1()
    ensures Run("a") == (Failed(InvalidSyntax(Position(1, 1), ROOT_EXPECTED)), Position(1, 1))
  {
    assert Step(Running(NullNode, [], None), 'a', Position(1, 1)) == Failed(InvalidSyntax(Position(1, 1), ROOT_EXPECTED));
    assert Run("") == (Initial, Start);
    RunSnoc("", 'a');
    assert "" + ['a'] == "a";
  }

  /** A list rejects a closing parenthesis and lists what it would accept. */
  lemma CloseStructInList()
    ensures Decode("[)") == Err(InvalidSyntax(Position(1, 2), LIST_EXPECTED))
  {
    CloseStructInListPrefix2();
  }

  // The machine and cursor after each prefix of the document.

  lemma CloseStructInListPrefix1()
    ensures Run("[") == (Running(NullNode, [ListFrame(Position(1, 1), [])], None), Position(1, 1))
  {
    assert Step(Running(NullNode, [], None), '[', Position(1, 1)) == Running(NullNode, [ListFrame(Position(1, 1), [])], None) by {
      assert [] + [ListFrame(Position(1, 1), [])] == [ListFrame(Position(1, 1), [])];
    }
    assert Run("") == (Initial, Start);
    RunSnoc("", '[');
    assert "" + ['['] == "[";
  }

  lemma CloseStructInListPrefix2()
    ensures Run("[)") == (Failed(InvalidSyntax(Position(1, 2), LIST_EXPECTED)), Position(1, 2))
  {
    assert Step(Running(NullNode, [ListFrame(Position(1, 1), [])], None), ')', Position(1, 2)) == Failed(InvalidSyntax(Position(1, 2), LIST_EXPECTED)) by {
      assert Below([ListFrame(Position(1, 1), [])]) == [];
    }
    CloseStructInListPrefix1();
    RunSnoc("[", ')');
    assert "[" + [')'] == "[)";
  }

  /** After a field name and whitespace only the assignment or more whitespace is accepted. */
  lemma OpenParenthesisBeforeAssignment()
    ensures Decode("( a ( ") == Err(InvalidSyntax(Position(1, 5), PRE_ASSIGN_EXPECTED))
  {
    OpenParenthesisBeforeAssignmentPrefix6();
  }

  // The machine and cursor after each prefix of the document.

  lemma OpenParenthesisBeforeAssignmentPrefix1()
    ensures Run("(") == (Running(NullNode, [StructFrame(Position(1, 1), map[], [], "", AwaitField)], None), Position(1, 1))
  {
    assert Step(Running(NullNode, [], None), '(', Position(1, 1)) == Running(NullNode, [StructFrame(Position(1, 1), map[], [], "", AwaitField)], None) by {
      assert [] + [StructFrame(Position(1, 1), map[], [], "", AwaitField)] == [StructFrame(Position(1, 1), map[], [], "", AwaitField)];
    }
    assert Run("") == (Initial, Start);
    RunSnoc("", '(');
    assert "" + ['('] == "(";
  }

  lemma OpenParenthesisBeforeAssignmentPrefix2()
    ensures Run("( ") == (Running(NullNode, [StructFrame(Position(1, 1), map[], [], "", AwaitField)], None), Position(1, 2))
  {
    assert Step(Running(NullNode, [StructFrame(Position(1, 1), map[], [], "", AwaitField)], None), ' ', Position(1, 2)) == Running(NullNode, [StructFrame(Position(1, 1), map[], [], "", AwaitField)], None) by {
      assert Below([StructFrame(Position(1, 1), map[], [], "", AwaitField)]) == [];
    }
    OpenParenthesisBeforeAssignmentPrefix1();
    RunSnoc("(", ' ');
    assert "(" + [' '] == "( ";
  }

  lemma OpenParenthesisBeforeAssignmentPrefix3()
    ensures Run("( a") == (Running(NullNode, [StructFrame(Position(1, 1), map[], [], "a", FieldName)], None), Position(1, 3))
  {
    assert Step(Running(NullNode, [StructFrame(Position(1, 1), map[], [], "", AwaitField)], None), 'a', Position(1, 3)) == Running(NullNode, [StructFrame(Position(1, 1), map[], [], "a", FieldName)], None) by {
      assert Below([StructFrame(Position(1, 1), map[], [], "", AwaitField)]) == [];
      assert [] + [StructFrame(Position(1, 1), map[], [], "a", FieldName)] == [StructFrame(Position(1, 1), map[], [], "a", FieldName)];
      assert "" + ['a'] == "a";
    }
    OpenParenthesisBeforeAssignmentPrefix2();
    RunSnoc("( ", 'a');
    assert "( " + ['a'] == "( a";
  }

  lemma OpenParenthesisBeforeAssignmentPrefix4()
    ensures Run("( a ") == (Running(NullNode, [StructFrame(Position(1, 1), map[], [], "a", PreAssign)], None), Position(1, 4))
  {
    assert Step(Running(NullNode, [StructFrame(Position(1, 1), map[], [], "a", FieldName)], None), ' ', Position(1, 4)) == Running(NullNode, [StructFrame(Position(1, 1), map[], [], "a", PreAssign)], None) by {
      assert Below([StructFrame(Position(1, 1), map[], [], "a", FieldName)]) == [];
      assert [] + [StructFrame(Position(1, 1), map[], [], "a", PreAssign)] == [StructFrame(Position(1, 1), map[], [], "a", PreAssign)];
    }
    OpenParenthesisBeforeAssignmentPrefix3();
    RunSnoc("( a", ' ');
    assert "( a" + [' '] == "( a ";
  }

  lemma OpenParenthesisBeforeAssignmentPrefix5()
    ensures Run("( a (") == (Failed(InvalidSyntax(Position(1, 5), PRE_ASSIGN_EXPECTED)), Position(1, 5))
  {
    assert Step(Running(NullNode, [StructFrame(Position(1, 1), map[], [], "a", PreAssign)], None), '(', Position(1, 5)) == Failed(InvalidSyntax(Position(1, 5), PRE_ASSIGN_EXPECTED)) by {
      assert Below([StructFrame(Position(1, 1), map[], [], "a", PreAssign)]) == [];
    }
    OpenParenthesisBeforeAssignmentPrefix4();
    RunSnoc("( a ", '(');
    assert "( a " + ['('] == "( a (";
  }

  lemma OpenParenthesisBeforeAssignmentPrefix6()
    ensures Run("( a ( ") == (Failed(InvalidSyntax(Position(1, 5), PRE_ASSIGN_EXPECTED)), Position(1, 6))
  {
    assert Step(Failed(InvalidSyntax(Position(1, 5), PRE_ASSIGN_EXPECTED)), ' ', Position(1, 6)) == Failed(InvalidSyntax(Position(1, 5), PRE_ASSIGN_EXPECTED));
    OpenParenthesisBeforeAssignmentPrefix5();
    RunSnoc("( a (", ' ');
    assert "( a (" + [' '] == "( a ( ";
  }

  /** An opening bracket is rejected in the same place, and nothing after the error is read. */
  lemma OpenBracketBeforeAssignment()
    ensures Decode("( a [\"") == Err(InvalidSyntax(Position(1, 5), PRE_ASSIGN_EXPECTED))
  {
    OpenBracketBeforeAssignmentPrefix6();
  }

  // The machine and cursor after each prefix of the document.

  lemma OpenBracketBeforeAssignmentPrefix1()
    ensures Run("(") == (Running(NullNode, [StructFrame(Position(1, 1), map[], [], "", AwaitField)], None), Position(1, 1))
  {
    assert Step(Running(NullNode, [], None), '(', Position(1, 1)) == Running(NullNode, [StructFrame(Position(1, 1), map[], [], "", AwaitField)], None) by {
      assert [] + [StructFrame(Position(1, 1), map[], [], "", AwaitField)] == [StructFrame(Position(1, 1), map[], [], "", AwaitField)];
    }
    assert Run("") == (Initial, Start);
    RunSnoc("", '(');
    assert "" + ['('] == "(";
  }

  lemma OpenBracketBeforeAssignmentPrefix2()
    ensures Run("( ") == (Running(NullNode, [StructFrame(Position(1, 1), map[], [], "", AwaitField)], None), Position(1, 2))
  {
    assert Step(Running(NullNode, [StructFrame(Position(1, 1), map[], [], "", AwaitField)], None), ' ', Position(1, 2)) == Running(NullNode, [StructFrame(Position(1, 1), map[], [], "", AwaitField)], None) by {
      assert Below([StructFrame(Position(1, 1), map[], [], "", AwaitField)]) == [];
    }
    OpenBracketBeforeAssignmentPrefix1();
    RunSnoc("(", ' ');
    assert "(" + [' '] == "( ";
  }

  lemma OpenBracketBeforeAssignmentPrefix3()
    ensures Run("( a") == (Running(NullNode, [StructFrame(Position(1, 1), map[], [], "a", FieldName)], None), Position(1, 3))
  {
    assert Step(Running(NullNode, [StructFrame(Position(1, 1), map[], [], "", AwaitField)], None), 'a', Position(1, 3)) == Running(NullNode, [StructFrame(Position(1, 1), map[], [], "a", FieldName)], None) by {
      assert Below([StructFrame(Position(1, 1), map[], [], "", AwaitField)]) == [];
      assert [] + [StructFrame(Position(1, 1), map[], [], "a", FieldName)] == [StructFrame(Position(1, 1), map[], [], "a", FieldName)];
      assert "" + ['a'] == "a";
    }
    OpenBracketBeforeAssignmentPrefix2();
    RunSnoc("( ", 'a');
    assert "( " + ['a'] == "( a";
  }

  lemma OpenBracketBeforeAssignmentPrefix4()
    ensures Run("( a ") == (Running(NullNode, [StructFrame(Position(1, 1), map[], [], "a", PreAssign)], None), Position(1, 4))
  {
    assert Step(Running(NullNode, [StructFrame(Position(1, 1), map[], [], "a", FieldName)], None), ' ', Position(1, 4)) == Running(NullNode, [StructFrame(Position(1, 1), map[], [], "a", PreAssign)], None) by {
      assert Below([StructFrame(Position(1, 1), map[], [], "a", FieldName)]) == [];
      assert [] + [StructFrame(Position(1, 1), map[], [], "a", PreAssign)] == [StructFrame(Position(1, 1), map[], [], "a", PreAssign)];
    }
    OpenBracketBeforeAssignmentPrefix3();
    RunSnoc("( a", ' ');
    assert "( a" + [' '] == "( a ";
  }

  lemma OpenBracketBeforeAssignmentPrefix5()
    ensures Run("( a [") == (Failed(InvalidSyntax(Position(1, 5), PRE_ASSIGN_EXPECTED)), Position(1, 5))
  {
    assert Step(Running(NullNode, [StructFrame(Position(1, 1), map[], [], "a", PreAssign)], None), '[', Position(1, 5)) == Failed(InvalidSyntax(Position(1, 5), PRE_ASSIGN_EXPECTED)) by {
      assert Below([StructFrame(Position(1, 1), map[], [], "a", PreAssign)]) == [];
    }
    OpenBracketBeforeAssignmentPrefix4();
    RunSnoc("( a ", '[');
    assert "( a " + ['['] == "( a [";
  }

  lemma OpenBracketBeforeAssignmentPrefix6()
    ensures Run("( a [\"") == (Failed(InvalidSyntax(Position(1, 5), PRE_ASSIGN_EXPECTED)), Position(1, 6))
  {
    assert Step(Failed(InvalidSyntax(Position(1, 5), PRE_ASSIGN_EXPECTED)), '"', Position(1, 6)) == Failed(InvalidSyntax(Position(1, 5), PRE_ASSIGN_EXPECTED));
    OpenBracketBeforeAssignmentPrefix5();
    RunSnoc("( a [", '"');
    assert "( a [" + ['"'] == "( a [\"";
  }

  /** Text that ends inside a list is an end-of-input error at the last cursor position. */
  lemma IncompleteList()
    ensures Decode("[\n ") == Err(EndOfInput(Position(2, 1)))
  {
    IncompleteListPrefix3();
  }

  // The machine and cursor after each prefix of the document.

  lemma IncompleteListPrefix1()
    ensures Run("[") == (Running(NullNode, [ListFrame(Position(1, 1), [])], None), Position(1, 1))
  {
    assert Step(Running(NullNode, [], None), '[', Position(1, 1)) == Running(NullNode, [ListFrame(Position(1, 1), [])], None) by {
      assert [] + [ListFrame(Position(1, 1), [])] == [ListFrame(Position(1, 1), [])];
    }
    assert Run("") == (Initial, Start);
    RunSnoc("", '[');
    assert "" + ['['] == "[";
  }

  lemma IncompleteListPrefix2()
    ensures Run("[\n") == (Running(NullNode, [ListFrame(Position(1, 1), [])], None), Position(2, 0))
  {
    assert Step(Running(NullNode, [ListFrame(Position(1, 1), [])], None), '\n', Position(2, 0)) == Running(NullNode, [ListFrame(Position(1, 1), [])], None) by {
      assert Below([ListFrame(Position(1, 1), [])]) == [];
    }
    IncompleteListPrefix1();
    RunSnoc("[", '\n');
    assert "[" + ['\n'] == "[\n";
  }

  lemma IncompleteListPrefix3()
    ensures Run("[\n ") == (Running(NullNode, [ListFrame(Position(1, 1), [])], None), Position(2, 1))
  {
    assert Step(Running(NullNode, [ListFrame(Position(1, 1), [])], None), ' ', Position(2, 1)) == Running(NullNode, [ListFrame(Position(1, 1), [])], None) by {
      assert Below([ListFrame(Position(1, 1), [])]) == [];
    }
    IncompleteListPrefix2();
    RunSnoc("[\n", ' ');
    assert "[\n" + [' '] == "[\n ";
  }
}
