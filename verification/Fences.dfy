/**
 Closing open code fences while an answer streams in: safeStreamMarkdown of
 frontend/src/components/ChatWidget.tsx.
 */
module Fences {
  const FENCE := "```"
  const CLOSING := "\n```"

  /** The number of matches of /```/g: scanned from the left, not overlapping. */
  function Matches(s: string): nat {
    if |s| < 3 then 0
    else if s[..3] == FENCE then 1 + Matches(s[3..])
    else Matches(s[1..])
  }

  function SafeStreamMarkdown(text: string): string {
    if Matches(text) % 2 == 1 then text + CLOSING else text
  }

  // ---- An independent count: whole fences in every maximal run of backticks ---------------------

  function LeadingTicks(s: string): nat
    ensures LeadingTicks(s) <= |s|
  {
    if s == "" || s[0] != '`' then 0 else 1 + LeadingTicks(s[1..])
  }

  function FencesInRuns(s: string): nat {
    if s == "" then 0
    else if s[0] != '`' then FencesInRuns(s[1..])
    else LeadingTicks(s) / 3 + FencesInRuns(s[LeadingTicks(s)..])
  }

  lemma {:induction false} LeadingTicksAre(s: string)
    ensures forall i | 0 <= i < LeadingTicks(s) :: s[i] == '`'
    ensures LeadingTicks(s) < |s| ==> s[LeadingTicks(s)] != '`'
  {
    if s == "" || s[0] != '`' {
    } else {
      LeadingTicksAre(s[1..]);
      forall i | 0 <= i < LeadingTicks(s) ensures s[i] == '`' {
        if i > 0 {
          assert s[1..][i - 1] == s[i];
        }
      }
    }
  }

  lemma {:induction false} DropTicks(s: string, n: nat)
    requires n <= LeadingTicks(s)
    ensures LeadingTicks(s[n..]) == LeadingTicks(s) - n
  {
    if n == 0 {
    } else {
      DropTicks(s[1..], n - 1);
      assert s[1..][n - 1..] == s[n..];
    }
  }

  /** One or two backticks are no match. */
  lemma {:induction false} NoMatchInShortRun(s: string)
    requires 0 < LeadingTicks(s) < 3
    ensures Matches(s) == Matches(s[1..]) && LeadingTicks(s[1..]) == LeadingTicks(s) - 1
  {
    LeadingTicksAre(s);
    DropTicks(s, 1);
    assert |s| >= 3 ==> s[LeadingTicks(s)] != '`';
  }

  lemma {:induction false} MatchesOfRun(s: string)
    ensures Matches(s) == LeadingTicks(s) / 3 + Matches(s[LeadingTicks(s)..])
  {
    var n := LeadingTicks(s);
    if n == 0 {
      assert s[n..] == s;
    } else if n >= 3 {
      LeadingTicksAre(s);
      assert s[..3] == FENCE;
      DropTicks(s, 3);
      MatchesOfRun(s[3..]);
      assert s[3..][n - 3..] == s[n..];
    } else {
      NoMatchInShortRun(s);
      MatchesOfRun(s[1..]);
      assert s[1..][n - 1..] == s[n..];
    }
  }

  /** The left-to-right scanner finds, in every run of n backticks, exactly n / 3 fences. */
  lemma {:induction false} ScannerCountsRuns(s: string)
    ensures Matches(s) == FencesInRuns(s)
    decreases |s|
  {
    if s == "" {
    } else {
      MatchesOfRun(s);
      if s[0] == '`' {
        ScannerCountsRuns(s[LeadingTicks(s)..]);
      } else {
        assert Matches(s) == Matches(s[1..]);
        ScannerCountsRuns(s[1..]);
      }
    }
  }

  // ---- Closing a fence ----------------------------------------------------------------------------

  /** A newline keeps the matches on its two sides apart. */
  lemma {:induction false} MatchesAcrossNewline(s: string, t: string)
    ensures Matches(s + "\n" + t) == Matches(s) + Matches(t)
    decreases |s|
  {
    var whole := s + "\n" + t;
    if |s| < 3 {
      if s == "" {
        assert whole[1..] == t;
        assert |whole| >= 3 ==> whole[..3][0] == '\n';
      } else {
        assert |whole| >= 3 ==> whole[..3][|s|] == '\n';
        assert whole[1..] == s[1..] + "\n" + t;
        MatchesAcrossNewline(s[1..], t);
      }
    } else if s[..3] == FENCE {
      assert whole[..3] == s[..3];
      assert whole[3..] == s[3..] + "\n" + t;
      MatchesAcrossNewline(s[3..], t);
    } else {
      assert whole[..3] == s[..3];
      assert whole[1..] == s[1..] + "\n" + t;
      MatchesAcrossNewline(s[1..], t);
    }
  }

  lemma {:induction false} ClosingAddsOneMatch(s: string)
    ensures Matches(s + CLOSING) == Matches(s) + 1
  {
    MatchesAcrossNewline(s, FENCE);
    assert s + CLOSING == s + "\n" + FENCE;
    assert FENCE[3..] == "";
  }

  /**
   The safe text extends the streamed one, has an even number of fences, is the streamed text
   itself iff that was balanced, and is not changed by another pass.
   */
  lemma {:induction false} SafeTextIsBalanced(text: string)
    ensures var r := SafeStreamMarkdown(text);
            && text <= r
            && Matches(r) == Matches(text) + Matches(text) % 2
            && Matches(r) % 2 == 0
            && r == (if Matches(text) % 2 == 0 then text else text + "\n```")
            && SafeStreamMarkdown(r) == r
  {
    ClosingAddsOneMatch(text);
  }
}
