/** The issue-key check of the session loop: `String.matches("^[a-zA-Z]+-\\d+$")`.

    `IsIssueKey` runs the deterministic automaton of that regular expression over
    the whole input (Java's `matches` anchors at both ends); `KeyShape` is the
    independent, declarative description of the same language, and
    `IsIssueKeyCorrect` proves the two agree on every string. */
module IssueKey {

  /** `[a-zA-Z]`: ASCII letters only. */
  predicate IsLetter(c: char) {
    ('a' <= c <= 'z') || ('A' <= c <= 'Z')
  }

  /** `\d` without UNICODE_CHARACTER_CLASS: the ASCII digits `[0-9]`. */
  predicate IsDigit(c: char) {
    '0' <= c <= '9'
  }

  predicate AllLetters(s: string) {
    forall i :: 0 <= i < |s| ==> IsLetter(s[i])
  }

  predicate AllDigits(s: string) {
    forall i :: 0 <= i < |s| ==> IsDigit(s[i])
  }

  /** The language of the regular expression, stated directly: one or more
      letters, a single dash, one or more digits, and nothing else. */
  ghost predicate KeyShape(s: string) {
    exists d :: 0 < d < |s| - 1 && s[d] == '-' && AllLetters(s[..d]) && AllDigits(s[d + 1..])
  }

  /** States of the automaton for `[a-zA-Z]+-\d+`. */
  datatype KeyState = Start | Letters | Dash | Digits | Dead

  function Step(q: KeyState, c: char): KeyState {
    match q
    case Start => if IsLetter(c) then Letters else Dead
    case Letters => if IsLetter(c) then Letters else if c == '-' then Dash else Dead
    case Dash => if IsDigit(c) then Digits else Dead
    case Digits => if IsDigit(c) then Digits else Dead
    case Dead => Dead
  }

  function Scan(q: KeyState, s: string): KeyState
    decreases |s|
  {
    if |s| == 0 then q else Scan(Step(q, s[0]), s[1..])
  }

  /** The whole input is accepted when the automaton ends in `Digits`. */
  predicate IsIssueKey(s: string) {
    Scan(Start, s) == Digits
  }

  lemma {:induction false} DeadStays(s: string)
    ensures Scan(Dead, s) == Dead
    decreases |s|
  {
    if |s| > 0 {
      DeadStays(s[1..]);
    }
  }

  /** From `Digits`, the rest is accepted exactly when it is all digits. */
  lemma {:induction false} FromDigits(s: string)
    ensures Scan(Digits, s) == Digits <==> AllDigits(s)
    decreases |s|
  {
    if |s| > 0 {
      AllDigitsCons(s);
      if IsDigit(s[0]) {
        FromDigits(s[1..]);
      } else {
        DeadStays(s[1..]);
      }
    }
  }

  /** Zero or more letters, a dash, one or more digits: what the automaton
      still has to read once it has seen the first letter. */
  ghost predicate LettersDashDigits(s: string) {
    exists d :: 0 <= d < |s| - 1 && s[d] == '-' && AllLetters(s[..d]) && AllDigits(s[d + 1..])
  }

  lemma AllDigitsCons(s: string)
    requires |s| > 0
    ensures AllDigits(s) <==> IsDigit(s[0]) && AllDigits(s[1..])
  {
    if IsDigit(s[0]) && AllDigits(s[1..]) {
      forall i | 0 <= i < |s| ensures IsDigit(s[i]) {
        if i > 0 { assert s[i] == s[1..][i - 1]; }
      }
    }
  }

  lemma LetterHead(s: string)
    requires |s| > 0 && IsLetter(s[0])
    ensures LettersDashDigits(s) <==> LettersDashDigits(s[1..])
  {
    var t := s[1..];
    if LettersDashDigits(t) {
      var d :| 0 <= d < |t| - 1 && t[d] == '-' && AllLetters(t[..d]) && AllDigits(t[d + 1..]);
      assert s[..d + 1] == [s[0]] + t[..d];
      assert s[d + 2..] == t[d + 1..];
      assert 0 <= d + 1 < |s| - 1 && s[d + 1] == '-' && AllLetters(s[..d + 1]) && AllDigits(s[d + 2..]);
    }
    if LettersDashDigits(s) {
      var d :| 0 <= d < |s| - 1 && s[d] == '-' && AllLetters(s[..d]) && AllDigits(s[d + 1..]);
      assert d != 0;
      assert t[..d - 1] == s[1..d];
      assert t[d..] == s[d + 1..];
      assert 0 <= d - 1 < |t| - 1 && t[d - 1] == '-' && AllLetters(t[..d - 1]) && AllDigits(t[d - 1 + 1..]);
    }
  }

  lemma DashHead(s: string)
    requires |s| > 0 && s[0] == '-'
    ensures LettersDashDigits(s) <==> |s| > 1 && AllDigits(s[1..])
  {
    if |s| > 1 && AllDigits(s[1..]) {
      assert s[..0] == [];
      assert 0 <= 0 < |s| - 1 && s[0] == '-' && AllLetters(s[..0]) && AllDigits(s[0 + 1..]);
    }
    if LettersDashDigits(s) {
      var d :| 0 <= d < |s| - 1 && s[d] == '-' && AllLetters(s[..d]) && AllDigits(s[d + 1..]);
    }
  }

  lemma OtherHead(s: string)
    requires |s| > 0 && !IsLetter(s[0]) && s[0] != '-'
    ensures !LettersDashDigits(s)
  {
    forall d | 0 < d < |s| - 1 && s[d] == '-'
      ensures !AllLetters(s[..d])
    {
      assert s[..d][0] == s[0];
    }
  }

  /** From `Dash`, the rest is accepted exactly when it is one or more digits. */
  lemma FromDash(s: string)
    ensures Scan(Dash, s) == Digits <==> |s| > 0 && AllDigits(s)
  {
    if |s| > 0 {
      AllDigitsCons(s);
      if IsDigit(s[0]) {
        FromDigits(s[1..]);
      } else {
        DeadStays(s[1..]);
      }
    }
  }

  /** From `Letters`, the rest is accepted exactly when it is letters, one
      dash, then one or more digits. */
  lemma {:induction false} FromLetters(s: string)
    ensures Scan(Letters, s) == Digits <==> LettersDashDigits(s)
    decreases |s|
  {
    if |s| == 0 {
      return;
    }
    if IsLetter(s[0]) {
      FromLetters(s[1..]);
      LetterHead(s);
    } else if s[0] == '-' {
      FromDash(s[1..]);
      DashHead(s);
    } else {
      DeadStays(s[1..]);
      OtherHead(s);
    }
  }

  /** The automaton accepts exactly the strings of the key shape, in both
      directions: every accepted line has the shape, and every line of the
      shape is accepted. */
  lemma IsIssueKeyCorrect(s: string)
    ensures IsIssueKey(s) <==> KeyShape(s)
  {
    if |s| == 0 {
      return;
    }
    if IsLetter(s[0]) {
      FromLetters(s[1..]);
      var t := s[1..];
      if LettersDashDigits(t) {
        var d :| 0 <= d < |t| - 1 && t[d] == '-' && AllLetters(t[..d]) && AllDigits(t[d + 1..]);
        assert s[..d + 1] == [s[0]] + t[..d];
        assert s[d + 2..] == t[d + 1..];
        assert 0 < d + 1 < |s| - 1 && s[d + 1] == '-' && AllLetters(s[..d + 1]) && AllDigits(s[d + 2..]);
      }
      if KeyShape(s) {
        var d :| 0 < d < |s| - 1 && s[d] == '-' && AllLetters(s[..d]) && AllDigits(s[d + 1..]);
        assert t[..d - 1] == s[1..d];
        assert t[d..] == s[d + 1..];
        assert 0 <= d - 1 < |t| - 1 && t[d - 1] == '-' && AllLetters(t[..d - 1]) && AllDigits(t[d - 1 + 1..]);
      }
    } else {
      DeadStays(s[1..]);
    }
  }

  /** The sentinel of the outer prompt is not a key, so typed at the re-prompt
      it is rejected like any other malformed line. */
  lemma ExitIsNotAKey()
    ensures !IsIssueKey("exit")
    ensures !KeyShape("exit")
  {
    IsIssueKeyCorrect("exit");
  }

  /** Keys the pattern accepts: letters of either case, one dash, digits. */
  lemma AcceptedKeys()
    ensures IsIssueKey("ABC-123")
    ensures IsIssueKey("jira-1")
  {
  }

  /** Lines the pattern rejects: an empty half, a digit among the letters, a
      letter among the digits, a second dash. */
  lemma RejectedKeys()
    ensures !IsIssueKey("ABC-")
    ensures !IsIssueKey("-123")
    ensures !IsIssueKey("AB1-23")
    ensures !IsIssueKey("ABC-12a")
    ensures !IsIssueKey("ABC--1")
  {
  }
}
