/** What the string operations do to a text, without naming them: small letters,
    and a text without the blanks around it. */
module TextLaws {
  import opened Strings

  // ----- Blanks and case -----

  /** White space by its code points. */
  predicate IsBlank(c: char) {
    c as int in {9, 10, 11, 12, 13, 32, 133, 160, 5760, 8192, 8193, 8194, 8195, 8196, 8197, 8198, 8199, 8200, 8201,
                 8202, 8232, 8233, 8239, 8287, 12288}
  }

  lemma BlanksAreSpaces(c: char)
    ensures IsSpace(c) <==> IsBlank(c)
  {
  }

  const UPPER: string := "ABCDEFGHIJKLMNOPQRSTUVWXYZ"
  const LOWER: string := "abcdefghijklmnopqrstuvwxyz"

  /** Each capital becomes the small letter at its place of the alphabet, any other
      character stays. */
  ghost predicate IsLowered(s: string, lowered: string) {
    && |lowered| == |s|
    && (forall i, k :: 0 <= i < |s| && 0 <= k < 26 && s[i] == UPPER[k] ==> lowered[i] == LOWER[k])
    && (forall i :: 0 <= i < |s| && s[i] !in UPPER ==> lowered[i] == s[i])
  }

  lemma AlphabetAt(k: nat)
    requires k < 26
    ensures UPPER[k] as int == 65 + k && LOWER[k] as int == 97 + k
  {
  }

  lemma LowerIs(s: string)
    ensures IsLowered(s, Lower(s))
  {
    forall i, k | 0 <= i < |s| && 0 <= k < 26 && s[i] == UPPER[k] ensures Lower(s)[i] == LOWER[k] {
      AlphabetAt(k);
    }
    forall i | 0 <= i < |s| ensures s[i] in UPPER || Lower(s)[i] == s[i] {
      if 'A' <= s[i] <= 'Z' {
        AlphabetAt(s[i] as int - 65);
        assert UPPER[s[i] as int - 65] == s[i];
      }
    }
  }

  lemma LoweredOnce(s: string, lowered: string)
    ensures IsLowered(s, lowered) <==> lowered == Lower(s)
  {
    LowerIs(s);
    if IsLowered(s, lowered) {
      forall i | 0 <= i < |s| ensures lowered[i] == Lower(s)[i] {
        if s[i] in UPPER {
          var k :| 0 <= k < 26 && s[i] == UPPER[k];
          AlphabetAt(k);
        }
      }
    }
  }

  // ----- Trimming -----

  ghost predicate Encloses(s: string, trimmed: string, lo: nat, hi: nat) {
    && lo <= hi <= |s| && trimmed == s[lo..hi]
    && (forall i :: 0 <= i < lo || hi <= i < |s| ==> IsBlank(s[i]))
    && (lo < hi ==> !IsBlank(s[lo]) && !IsBlank(s[hi - 1]))
  }

  /** The text without the blanks around it. */
  ghost predicate IsTrimmed(s: string, trimmed: string) {
    exists lo, hi :: Encloses(s, trimmed, lo, hi)
  }

  lemma FirstBlank(s: string, trimmed: string, lo: nat, hi: nat)
    requires s != "" && IsBlank(s[0]) && Encloses(s[1..], trimmed, lo, hi)
    ensures Encloses(s, trimmed, lo + 1, hi + 1)
  {
    assert s[lo + 1..hi + 1] == s[1..][lo..hi];
    forall i | 0 <= i < lo + 1 || hi + 1 <= i < |s| ensures IsBlank(s[i]) {
      assert i > 0 ==> s[1..][i - 1] == s[i];
    }
  }

  lemma LastBlank(s: string, trimmed: string, lo: nat, hi: nat)
    requires s != "" && IsBlank(s[|s| - 1]) && Encloses(s[..|s| - 1], trimmed, lo, hi)
    ensures Encloses(s, trimmed, lo, hi)
  {
    assert s[lo..hi] == s[..|s| - 1][lo..hi];
    forall i | 0 <= i < lo || hi <= i < |s| ensures IsBlank(s[i]) {
      assert i < |s| - 1 ==> s[..|s| - 1][i] == s[i];
    }
  }

  lemma NothingBlank(s: string)
    requires s == "" || (!IsBlank(s[0]) && !IsBlank(s[|s| - 1]))
    ensures Encloses(s, s, 0, |s|)
  {
  }

  lemma {:induction false} TrimIs(s: string) returns (trimmed: string, lo: nat, hi: nat)
    ensures trimmed == Trim(s) && Encloses(s, trimmed, lo, hi)
  {
    if s == "" {
      trimmed, lo, hi := s, 0, 0;
      NothingBlank(s);
    } else {
      BlanksAreSpaces(s[0]);
      BlanksAreSpaces(s[|s| - 1]);
      if IsSpace(s[0]) {
        trimmed, lo, hi := TrimIs(s[1..]);
        FirstBlank(s, trimmed, lo, hi);
        lo, hi := lo + 1, hi + 1;
      } else if IsSpace(s[|s| - 1]) {
        trimmed, lo, hi := TrimIs(s[..|s| - 1]);
        LastBlank(s, trimmed, lo, hi);
      } else {
        trimmed, lo, hi := s, 0, |s|;
        NothingBlank(s);
      }
    }
  }

  lemma EnclosedOnce(s: string, a: string, b: string, lo: nat, hi: nat, lo': nat, hi': nat)
    requires Encloses(s, a, lo, hi) && Encloses(s, b, lo', hi') && lo < hi
    ensures lo' < hi' && a == b
  {
    assert !IsBlank(s[lo]) && !IsBlank(s[hi - 1]);
    assert lo' <= lo && hi <= hi';
    assert !IsBlank(s[lo']) && !IsBlank(s[hi' - 1]);
  }

  /** There is one such text. */
  lemma TrimmedIsTrim(s: string, trimmed: string)
    ensures IsTrimmed(s, trimmed) <==> trimmed == Trim(s)
  {
    var t, lo, hi := TrimIs(s);
    if IsTrimmed(s, trimmed) {
      var lo': nat, hi': nat :| Encloses(s, trimmed, lo', hi');
      if lo < hi {
        EnclosedOnce(s, t, trimmed, lo, hi, lo', hi');
      } else if lo' < hi' {
        EnclosedOnce(s, trimmed, t, lo', hi', lo, hi);
      }
    }
  }
}
