/**
 * `text.split(' ')` as the result handler uses it to place the finishing
 * caret: the pieces between single spaces, empty pieces included.
 */
module Words {

  /** JavaScript's `s.split(' ')`: `""` gives `[""]`, `" "` gives `["", ""]`. */
  function Split(s: string): (ws: seq<string>)
    ensures |ws| >= 1
  {
    if s == [] then [""]
    else
      var rest := Split(s[1..]);
      if s[0] == ' ' then [""] + rest
      else [[s[0]] + rest[0]] + rest[1..]
  }

  /** The inverse of Split: the pieces glued back with one space between each two. */
  function Join(ws: seq<string>): string
    requires |ws| >= 1
  {
    if |ws| == 1 then ws[0] else ws[0] + " " + Join(ws[1..])
  }

  function Spaces(s: string): nat {
    if s == [] then 0 else (if s[0] == ' ' then 1 else 0) + Spaces(s[1..])
  }

  /** The last piece of `split(' ')`, whose length is the finishing caret's charIndex. */
  function LastWord(s: string): string {
    var ws := Split(s);
    ws[|ws| - 1]
  }

  /** There is one more piece than there are spaces. */
  lemma {:induction false} SplitLength(s: string)
    ensures |Split(s)| == Spaces(s) + 1
  {
    if s != [] {
      SplitLength(s[1..]);
    }
  }

  /** No piece contains a space. */
  lemma {:induction false} SplitPiecesHaveNoSpace(s: string)
    ensures forall i :: 0 <= i < |Split(s)| ==> ' ' !in Split(s)[i]
  {
    if s != [] {
      SplitPiecesHaveNoSpace(s[1..]);
      var rest := Split(s[1..]);
      if s[0] != ' ' {
        assert ' ' !in rest[0];
        assert ' ' !in [s[0]] + rest[0];
      }
    }
  }

  lemma {:induction false} JoinPrepend(w: string, ws: seq<string>)
    requires |ws| >= 1
    ensures Join([w] + ws) == w + " " + Join(ws)
  {
    assert ([w] + ws)[1..] == ws;
  }

  lemma {:induction false} JoinExtendFirst(c: char, ws: seq<string>)
    requires |ws| >= 1
    ensures Join([[c] + ws[0]] + ws[1..]) == [c] + Join(ws)
  {
    var v := [[c] + ws[0]] + ws[1..];
    if |ws| > 1 {
      assert v[1..] == ws[1..];
      var tail := Join(ws[1..]);
      assert Join(v) == ([c] + ws[0]) + " " + tail;
      assert Join(ws) == ws[0] + " " + tail;
      assert ([c] + ws[0]) + " " + tail == [c] + (ws[0] + " " + tail);
    } else {
      assert v == [[c] + ws[0]];
    }
  }

  /** Joining the pieces gives the text back. */
  lemma {:induction false} JoinSplit(s: string)
    ensures Join(Split(s)) == s
  {
    if s != [] {
      var t := s[1..];
      var rest := Split(t);
      JoinSplit(t);
      if s[0] == ' ' {
        assert Split(s) == [""] + rest;
        JoinPrepend("", rest);
        assert s == " " + t;
      } else {
        assert Split(s) == [[s[0]] + rest[0]] + rest[1..];
        JoinExtendFirst(s[0], rest);
        assert s == [s[0]] + t;
      }
    }
  }

  /** Prefixing a space-free word extends the first piece and nothing else. */
  lemma {:induction false} SplitPrefixWord(a: string, t: string)
    requires ' ' !in a
    ensures Split(a + t) == [a + Split(t)[0]] + Split(t)[1..]
  {
    if a != [] {
      SplitPrefixWord(a[1..], t);
      assert (a + t)[1..] == a[1..] + t;
      assert (a + t)[0] == a[0];
      assert [a[0]] + (a[1..] + Split(t)[0]) == a + Split(t)[0];
    } else {
      assert a + t == t;
      assert a + Split(t)[0] == Split(t)[0];
      assert [Split(t)[0]] + Split(t)[1..] == Split(t);
    }
  }

  /** Split is the only way to cut a text into space-free pieces that join back to it. */
  lemma {:induction false} SplitJoin(ws: seq<string>)
    requires |ws| >= 1
    requires forall i :: 0 <= i < |ws| ==> ' ' !in ws[i]
    ensures Split(Join(ws)) == ws
  {
    if |ws| == 1 {
      SplitPrefixWord(ws[0], []);
      assert ws[0] + [] == ws[0];
    } else {
      SplitJoin(ws[1..]);
      var b := Join(ws[1..]);
      assert Split(" " + b) == [""] + Split(b) by {
        assert (" " + b)[1..] == b;
      }
      SplitPrefixWord(ws[0], " " + b);
      assert ws[0] + " " + b == ws[0] + (" " + b);
      assert ws[0] + "" == ws[0];
    }
  }

  /** A text without spaces is a single piece. */
  lemma NoSpaceIsOnePiece(t: string)
    requires ' ' !in t
    ensures Split(t) == [t]
  {
    SplitPrefixWord(t, []);
    assert t + [] == t;
  }

  /** How the last piece of `s` relates to the last piece of `s[1..]`. */
  lemma LastWordStep(s: string)
    requires s != []
    ensures s[0] != ' ' && |Split(s[1..])| == 1 ==> LastWord(s) == s
    ensures s[0] == ' ' || |Split(s[1..])| > 1 ==> LastWord(s) == LastWord(s[1..])
  {
    var rest := Split(s[1..]);
    if s[0] != ' ' && |rest| == 1 {
      JoinSplit(s[1..]);
      assert rest[0] == s[1..];
    }
  }

  /**
   * The last piece is the longest space-free suffix of the text: it ends the
   * text, holds no space, and is either the whole text or preceded by a space.
   */
  lemma {:induction false} LastWordIsFinalSuffix(s: string)
    ensures |LastWord(s)| <= |s|
    ensures LastWord(s) == s[|s| - |LastWord(s)|..]
    ensures ' ' !in LastWord(s)
    ensures |LastWord(s)| < |s| ==> s[|s| - |LastWord(s)| - 1] == ' '
  {
    if s != [] {
      var t := s[1..];
      LastWordIsFinalSuffix(t);
      LastWordStep(s);
      var w := LastWord(t);
      if s[0] != ' ' && |Split(t)| == 1 {
        assert ' ' !in t by {
          JoinSplit(t);
          SplitPiecesHaveNoSpace(t);
          assert t == Split(t)[0];
        }
        assert s == [s[0]] + t;
      } else {
        assert t[|t| - |w|..] == s[|s| - |w|..];
        if |w| == |t| {
          assert w == t;
          NoSpaceIsOnePiece(t);
          assert s[0] == ' ';
        } else {
          assert t[|t| - |w| - 1] == s[|s| - |w| - 1];
        }
      }
    }
  }
}
