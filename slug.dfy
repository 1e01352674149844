/**
 * The slug pattern `^[a-z0-9]+(?:-[a-z0-9]+)*$` of the validation module:
 * lower-case letters and digits in non-empty runs joined by single hyphens.
 * The pattern is run as the two-state automaton it denotes and proved equal
 * to a character-level description of the same language.
 */
module Slug {

  predicate IsWordChar(c: char) {
    'a' <= c <= 'z' || '0' <= c <= '9'
  }

  /** `NeedWord`: the next character must start a run (at the start, or after a hyphen). `InWord`: inside a run, where the input may end. */
  datatype MatchState = NeedWord | InWord

  function Matches(q: MatchState, s: string): (accepted: bool)
    decreases |s|
  {
    if s == [] then q == InWord
    else if IsWordChar(s[0]) then Matches(InWord, s[1..])
    else if s[0] == '-' && q == InWord then Matches(NeedWord, s[1..])
    else false
  }

  /** The regular expression's test, anchored at both ends. */
  function MatchesSlugPattern(s: string): (accepted: bool) {
    Matches(NeedWord, s)
  }

  predicate OnlyWordCharsAndHyphens(s: string) {
    forall i :: 0 <= i < |s| ==> IsWordChar(s[i]) || s[i] == '-'
  }

  predicate NoDoubleHyphen(s: string) {
    forall i :: 0 <= i < |s| - 1 ==> !(s[i] == '-' && s[i + 1] == '-')
  }

  /** A slug, described character by character: non-empty, only `[a-z0-9-]`, and no leading, trailing or doubled hyphen. */
  predicate IsSlug(s: string) {
    && |s| > 0
    && OnlyWordCharsAndHyphens(s)
    && s[0] != '-' && s[|s| - 1] != '-'
    && NoDoubleHyphen(s)
  }

  /** What may follow inside a run: the slug characters with no doubled and no trailing hyphen. */
  predicate RunTail(s: string) {
    OnlyWordCharsAndHyphens(s) && NoDoubleHyphen(s) && (s == [] || s[|s| - 1] != '-')
  }

  lemma {:induction false} InWordAccepts(s: string)
    ensures Matches(InWord, s) <==> RunTail(s)
    decreases |s|
  {
    if s == [] {
    } else if IsWordChar(s[0]) {
      InWordAccepts(s[1..]);
      if RunTail(s[1..]) {
        assert RunTail(s) by {
          forall i | 0 <= i < |s| - 1
            ensures !(s[i] == '-' && s[i + 1] == '-')
          {
            if i > 0 { assert s[i] == s[1..][i - 1] && s[i + 1] == s[1..][i]; }
          }
        }
      }
      if RunTail(s) {
        assert s[1..] == [] || s[1..][|s[1..]| - 1] == s[|s| - 1];
      }
    } else if s[0] == '-' {
      var rest := s[1..];
      if rest != [] && IsWordChar(rest[0]) {
        InWordAccepts(rest[1..]);
        assert Matches(NeedWord, rest) == Matches(InWord, rest[1..]);
        if RunTail(rest[1..]) {
          assert RunTail(s) by {
            forall i | 0 <= i < |s| - 1
              ensures !(s[i] == '-' && s[i + 1] == '-')
            {
              if i > 1 { assert s[i] == rest[1..][i - 2] && s[i + 1] == rest[1..][i - 1]; }
            }
          }
        }
        if RunTail(s) {
          assert rest[1..] == [] || rest[1..][|rest[1..]| - 1] == s[|s| - 1];
        }
      } else if rest != [] {
        assert s[1] == rest[0];
        assert !Matches(NeedWord, rest);
      } else {
        assert !Matches(NeedWord, rest);
      }
    } else {
      assert !OnlyWordCharsAndHyphens(s) by { assert !(IsWordChar(s[0]) || s[0] == '-'); }
    }
  }

  /** The pattern accepts exactly the slugs. */
  lemma SlugPatternCorrect(s: string)
    ensures MatchesSlugPattern(s) <==> IsSlug(s)
  {
    if s != [] && IsWordChar(s[0]) {
      InWordAccepts(s[1..]);
      if RunTail(s[1..]) {
        assert NoDoubleHyphen(s) by {
          forall i | 0 <= i < |s| - 1
            ensures !(s[i] == '-' && s[i + 1] == '-')
          {
            if i > 0 { assert s[i] == s[1..][i - 1] && s[i + 1] == s[1..][i]; }
          }
        }
        assert s[1..] == [] || s[1..][|s[1..]| - 1] == s[|s| - 1];
      }
      if IsSlug(s) {
        assert s[1..] == [] || s[1..][|s[1..]| - 1] == s[|s| - 1];
      }
    }
  }
}
