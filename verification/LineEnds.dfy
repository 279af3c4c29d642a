/** Line ends: which files are taken for CR LF files, and that rewriting their text keeps them so
    and changes nothing else. */
module LineEnds {
  import opened Options
  import opened Text
  import opened PatchSyntax
  import opened PatchEngine

  lemma {:induction false} NormalizeLength(s: string)
    ensures |NormalizeEol(s)| <= |s| && (|NormalizeEol(s)| == |s| ==> NormalizeEol(s) == s)
  {
    if |s| >= 2 && s[0] == '\r' && s[1] == '\n' {
      NormalizeLength(s[2..]);
    } else if s != [] {
      NormalizeLength(s[1..]);
    }
  }

  lemma CrLfRest(s: string)
    requires s != []
    ensures HasCrLf(s) <==> (|s| >= 2 && s[0] == '\r' && s[1] == '\n') || HasCrLf(s[1..])
  {
    if i :| 0 <= i < |s| - 1 && s[i] == '\r' && s[i + 1] == '\n' {
      assert i > 0 ==> s[1..][i - 1] == '\r' && s[1..][i] == '\n';
    }
    if i :| 0 <= i < |s[1..]| - 1 && s[1..][i] == '\r' && s[1..][i + 1] == '\n' {
      assert s[i + 1] == '\r' && s[i + 2] == '\n';
    }
  }

  /** A file is a CR LF file exactly when normalising its line ends changes it. */
  lemma {:induction false} CrLfFile(s: string)
    ensures HasCrLf(s) <==> NormalizeEol(s) != s
  {
    if s != [] {
      CrLfRest(s);
      if |s| >= 2 && s[0] == '\r' && s[1] == '\n' {
        NormalizeLength(s[2..]);
        assert |NormalizeEol(s)| < |s|;
      } else {
        CrLfFile(s[1..]);
        assert s == [s[0]] + s[1..];
        assert NormalizeEol(s)[1..] == NormalizeEol(s[1..]);
      }
    }
  }

  /** Every LF comes after a CR. */
  predicate AllCrLf(s: string) {
    forall i | 0 <= i < |s| && s[i] == '\n' :: i > 0 && s[i - 1] == '\r'
  }

  /** Rewriting LF as CR LF leaves no LF alone. */
  lemma {:induction false} RewrittenCrLf(s: string)
    ensures AllCrLf(LfToCrLf(s))
  {
    if s != [] {
      RewrittenCrLf(s[1..]);
      var head, rest := if s[0] == '\n' then "\r\n" else [s[0]], LfToCrLf(s[1..]);
      forall i | 0 <= i < |LfToCrLf(s)| && LfToCrLf(s)[i] == '\n' ensures i > 0 && LfToCrLf(s)[i - 1] == '\r' {
        assert LfToCrLf(s) == head + rest;
        if i >= |head| {
          assert rest[i - |head|] == '\n';
        }
      }
    }
  }

  lemma PairFreeTail(s: string)
    requires PairFree(s) && s != []
    ensures PairFree(s[1..]) && (s[0] == '\r' && |s| > 1 ==> s[1] != '\n')
  {
    forall i | 0 < i < |s[1..]| && s[1..][i] == '\n' ensures s[1..][i - 1] != '\r' {
      assert s[i + 1] == '\n';
    }
  }

  lemma RewrittenHead(s: string)
    requires s != [] ==> s[0] != '\n'
    ensures LfToCrLf(s) == [] || LfToCrLf(s)[0] != '\n'
  {
  }

  /** Rewriting takes nothing away: normalising gives the text back. */
  lemma {:induction false} RewrittenBack(s: string)
    requires PairFree(s)
    ensures NormalizeEol(LfToCrLf(s)) == s
  {
    if s != [] {
      PairFreeTail(s);
      RewrittenBack(s[1..]);
      var rest := LfToCrLf(s[1..]);
      if s[0] == '\n' {
        NormalizePair(rest);
      } else {
        if s[0] == '\r' {
          RewrittenHead(s[1..]);
        }
        NormalizeStep(s[0], rest);
      }
      assert s == [s[0]] + s[1..];
    }
  }

  /** What an update leaves ends in a newline, in the line ends of the file it began with. */
  lemma UpdatedStyle(path: string, content: string, hunks: seq<Hunk>)
    requires ApplyText(path, content, hunks).Ok?
    ensures var text := ApplyText(path, content, hunks).value;
            EndsWith(text, '\n') && (HasCrLf(content) ==> AllCrLf(text))
  {
    var file := SplitFile(content);
    var lines := ApplyLines(path, Edited(file.lines, 0), hunks).value.lines;
    RewrittenCrLf(Join(lines) + "\n");
    RewrittenEnd(Join(lines));
  }

  lemma {:induction false} RewrittenEnd(s: string)
    ensures EndsWith(LfToCrLf(s + "\n"), '\n')
  {
    if s == [] {
      assert s + "\n" == "\n" && "\n"[1..] == [];
      assert LfToCrLf("\n") == "\r\n" + [];
    } else {
      RewrittenEnd(s[1..]);
      FirstOf(s, "\n");
    }
  }
}
