/**
 * WorldAnvil line breaks: a backslash, or two spaces, right before a line
 * feed (optionally preceded by a carriage return) become `[br]`. The
 * backslash form is replaced first, then the two-space form; the format is
 * not consulted.
 */
module LineBreaks {
  import opened Wrappers
  import opened Text
  import opened Scanner

  const Backslash: string := "\\"
  const TwoSpaces: string := "  "

  /** `/<lead>\r?\n/`: the lead, then a line feed or a carriage return and a line feed. */
  function BreakAfter(lead: string): Matcher {
    (prev: Option<char>, t: string) =>
      if StartsWith(t, lead + "\n") then Some(Match(|lead| + 1, "[br]"))
      else if StartsWith(t, lead + "\r\n") then Some(Match(|lead| + 2, "[br]"))
      else None
  }

  /** `LineBreakConversionStrategy.convert`. */
  function LineBreaks(s: string): string {
    Replace(Replace(s, BreakAfter(Backslash)), BreakAfter(TwoSpaces))
  }

  /** The text before position `i` ends in `lead`. */
  predicate EndsWithLead(lead: string, s: string, i: nat)
    requires i <= |s|
  {
    if lead == Backslash then i >= 1 && s[i - 1] == '\\'
    else i >= 2 && s[i - 2] == ' ' && s[i - 1] == ' '
  }

  /** The text before position `i` ends in `lead`, or in `lead` and a carriage return. */
  predicate MarkedBy(lead: string, s: string, i: nat)
    requires i <= |s|
  {
    EndsWithLead(lead, s, i) || (i >= 1 && s[i - 1] == '\r' && EndsWithLead(lead, s, i - 1))
  }

  /** No line feed of `s` has `lead` before it. */
  predicate UnmarkedBy(lead: string, s: string) {
    forall i :: 0 <= i < |s| && s[i] == '\n' ==> !MarkedBy(lead, s, i)
  }

  /** No line feed of `s` has a break marker before it. */
  predicate Unmarked(s: string) {
    UnmarkedBy(Backslash, s) && UnmarkedBy(TwoSpaces, s)
  }

  /** `s` does not end half-way into a marker. */
  predicate CleanEnd(s: string) {
    s == [] || (s[|s| - 1] != '\\' && s[|s| - 1] != ' ' && s[|s| - 1] != '\r')
  }

  predicate IsLead(lead: string) {
    lead == Backslash || lead == TwoSpaces
  }

  predicate IsEol(eol: string) {
    eol == "\n" || eol == "\r\n"
  }

  /** What a break match spans: the lead, then a line feed with at most a carriage return before it. */
  lemma BreakShape(lead: string, p: Option<char>, t: string)
    requires IsLead(lead) && Consumes(BreakAfter(lead)(p, t), t)
    ensures |t| > |lead| && t[..|lead|] == lead
    ensures (t[|lead|] == '\n') || (|t| > |lead| + 1 && t[|lead|] == '\r' && t[|lead| + 1] == '\n')
  {
    if StartsWith(t, lead + "\n") {
      assert t[..|lead|] == (lead + "\n")[..|lead|];
      assert t[|lead|] == (lead + "\n")[|lead|];
    } else {
      assert t[..|lead|] == (lead + "\r\n")[..|lead|];
      assert t[|lead|] == (lead + "\r\n")[|lead|];
      assert t[|lead| + 1] == (lead + "\r\n")[|lead| + 1];
    }
  }

  /** A break written out is matched in full. */
  lemma BreakOf(lead: string, p: Option<char>, eol: string, rest: string)
    requires IsLead(lead) && IsEol(eol)
    ensures BreakAfter(lead)(p, lead + eol + rest) == Some(Match(|lead + eol|, "[br]"))
  {
    var t := lead + eol + rest;
    assert t[..|lead + eol|] == lead + eol;
    if eol == "\r\n" {
      assert t[|lead|] == '\r';
      assert !StartsWith(t, lead + "\n") by {
        assert (lead + "\n")[|lead|] == '\n';
      }
    }
  }

  lemma Window(d: string, y: string, j: nat, k: nat)
    requires j < |d| && k < |d[j..] + y|
    ensures (d[j..] + y)[k] == if j + k < |d| then d[j + k] else y[j + k - |d|]
  {
  }

  /** A break matching inside a cleanly ended text has its line feed inside that text. */
  lemma BreakInside(lead: string, d: string, y: string, j: nat)
    requires IsLead(lead) && CleanEnd(d) && j < |d|
    requires Consumes(BreakAfter(lead)(PrevAt(None, d, j), d[j..] + y), d[j..] + y)
    ensures (j + |lead| < |d| && d[j + |lead|] == '\n' && MarkedBy(lead, d, j + |lead|))
         || (j + |lead| + 1 < |d| && d[j + |lead| + 1] == '\n' && MarkedBy(lead, d, j + |lead| + 1))
  {
    var t := d[j..] + y;
    BreakShape(lead, PrevAt(None, d, j), t);
    var n := |lead|;
    assert t[0] == lead[0];
    Window(d, y, j, 0);
    assert j + 1 < |d|;
    if n == 2 {
      assert t[1] == lead[1];
      Window(d, y, j, 1);
      assert j + 2 < |d|;
    }
    assert EndsWithLead(lead, d, j + n);
    Window(d, y, j, n);
    if t[n] != '\n' {
      Window(d, y, j, n + 1);
      assert d[j + n] == '\r' && j + n + 1 < |d|;
    }
  }

  /** No break matches anywhere in a cleanly ended text without that break, whatever follows it. */
  lemma QuietBefore(lead: string, d: string, y: string)
    requires IsLead(lead) && UnmarkedBy(lead, d) && CleanEnd(d)
    ensures Quiet(None, d, y, BreakAfter(lead))
  {
    forall j | 0 <= j < |d| ensures !Consumes(BreakAfter(lead)(PrevAt(None, d, j), d[j..] + y), d[j..] + y) {
      if Consumes(BreakAfter(lead)(PrevAt(None, d, j), d[j..] + y), d[j..] + y) {
        BreakInside(lead, d, y, j);
      }
    }
  }

  lemma EmptyReplace(p: Option<char>, f: Matcher)
    ensures ReplaceAll(p, [], f) == []
  {
  }

  lemma BreaksIgnorePrev(lead: string)
    ensures IgnoresPrev(BreakAfter(lead))
  {
  }

  /** A text with no marker before any of its line feeds is left as it is. */
  lemma Unchanged(s: string)
    requires Unmarked(s) && CleanEnd(s)
    ensures LineBreaks(s) == s
  {
    assert s + [] == s;
    assert Replace(s, BreakAfter(Backslash)) == s by {
      QuietBefore(Backslash, s, []);
      CopyRun(None, s, [], BreakAfter(Backslash));
      EmptyReplace(PrevAt(None, s, |s|), BreakAfter(Backslash));
    }
    assert Replace(s, BreakAfter(TwoSpaces)) == s by {
      QuietBefore(TwoSpaces, s, []);
      CopyRun(None, s, [], BreakAfter(TwoSpaces));
      EmptyReplace(PrevAt(None, s, |s|), BreakAfter(TwoSpaces));
    }
  }

  /**
   * A backslash break after unmarked text becomes `[br]`; the text before it
   * is kept and the rest is converted on its own.
   */
  lemma BackslashBreak(d: string, eol: string, rest: string)
    requires Unmarked(d) && CleanEnd(d) && IsEol(eol)
    ensures LineBreaks(d + Backslash + eol + rest) == d + "[br]" + LineBreaks(rest)
  {
    var b, s := BreakAfter(Backslash), BreakAfter(TwoSpaces);
    var x := Backslash + eol;
    var r1 := Replace(rest, b);
    assert d + Backslash + eol + rest == d + x + rest;
    assert Replace(d + x + rest, b) == d + "[br]" + r1 by {
      QuietBefore(Backslash, d, x + rest);
      BreakOf(Backslash, None, eol, rest);
      BreaksIgnorePrev(Backslash);
      SplitAt(b, d, x, rest, "[br]");
    }
    assert Replace(d + "[br]" + r1, s) == d + "[br]" + Replace(r1, s) by {
      var e := d + "[br]";
      assert UnmarkedBy(TwoSpaces, e) && CleanEnd(e) by {
        forall i | 0 <= i < |e| && e[i] == '\n' ensures !MarkedBy(TwoSpaces, e, i) {
          assert i < |d|;
          assert MarkedBy(TwoSpaces, e, i) == MarkedBy(TwoSpaces, d, i);
        }
      }
      QuietBefore(TwoSpaces, e, r1);
      CopyRun(None, e, r1, s);
      BreaksIgnorePrev(TwoSpaces);
      PrevFree(PrevAt(None, e, |e|), None, r1, s);
      assert d + "[br]" + r1 == e + r1;
    }
  }

  /**
   * A two-space break after unmarked text becomes `[br]`; the text before it
   * is kept and the rest is converted on its own.
   */
  lemma SpaceBreak(d: string, eol: string, rest: string)
    requires Unmarked(d) && CleanEnd(d) && IsEol(eol)
    ensures LineBreaks(d + TwoSpaces + eol + rest) == d + "[br]" + LineBreaks(rest)
  {
    var b, s := BreakAfter(Backslash), BreakAfter(TwoSpaces);
    var x := TwoSpaces + eol;
    var r1 := Replace(rest, b);
    assert d + TwoSpaces + eol + rest == d + x + rest;
    assert Replace(d + x + rest, b) == d + x + r1 by {
      var e := d + x;
      assert UnmarkedBy(Backslash, e) && CleanEnd(e) by {
        forall i | 0 <= i < |e| && e[i] == '\n' ensures !MarkedBy(Backslash, e, i) {
          if i < |d| {
            assert MarkedBy(Backslash, e, i) == MarkedBy(Backslash, d, i);
          }
        }
      }
      QuietBefore(Backslash, e, rest);
      CopyRun(None, e, rest, b);
      BreaksIgnorePrev(Backslash);
      PrevFree(PrevAt(None, e, |e|), None, rest, b);
      assert d + x + rest == e + rest;
    }
    assert Replace(d + x + r1, s) == d + "[br]" + Replace(r1, s) by {
      QuietBefore(TwoSpaces, d, x + r1);
      BreakOf(TwoSpaces, None, eol, r1);
      BreaksIgnorePrev(TwoSpaces);
      SplitAt(s, d, x, r1, "[br]");
    }
  }
}
