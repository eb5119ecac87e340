/** The interface-name glob of the network module: `*` stands for any run of
    characters, `?` for exactly one, everything else for itself.

    The program matches with one loop that remembers only the last `*` it met.
    Here the loop is proved equal to the recursive reading of the pattern, and
    that reading equal to a declarative one (a cutting of the text, one piece
    per pattern character).
 */
module Wildcard {
  import opened Wrappers

  /** The recursive reading: a `*` either stands for nothing or eats one character and stays. */
  predicate Matches(pattern: string, text: string) {
    MatchesFrom(pattern, text, 0, 0)
  }

  /** The same for the pattern from `p` on against the text from `t` on. */
  predicate MatchesFrom(pattern: string, text: string, p: nat, t: nat)
    requires p <= |pattern| && t <= |text|
    decreases |pattern| - p, |text| - t
  {
    if p == |pattern| then t == |text|
    else if pattern[p] == '*' then
      MatchesFrom(pattern, text, p + 1, t) || (t < |text| && MatchesFrom(pattern, text, p, t + 1))
    else
      t < |text| && Single(pattern[p], text[t]) && MatchesFrom(pattern, text, p + 1, t + 1)
  }

  /** One pattern character that is not a star against one text character. */
  predicate Single(p: char, t: char) {
    p == '?' || p == t
  }

  // --- the declarative reading -------------------------------------------------------------

  /** `cuts` gives pattern character `q` the piece of the text from `cuts[q]` to `cuts[q + 1]`;
      only a star may take a piece that is not one fitting character. */
  ghost predicate Piece(pattern: string, text: string, cuts: seq<nat>, q: nat)
    requires q < |pattern| < |cuts|
  {
    && cuts[q] <= cuts[q + 1] <= |text|
    && (pattern[q] == '*' || (cuts[q + 1] == cuts[q] + 1 && Single(pattern[q], text[cuts[q]])))
  }

  /** The pieces of the pattern from `p` on make up the text from `t` on. */
  ghost predicate Cutting(pattern: string, text: string, p: nat, t: nat, cuts: seq<nat>)
    requires p <= |pattern| && t <= |text|
  {
    && |cuts| == |pattern| + 1
    && cuts[p] == t && cuts[|pattern|] == |text|
    && forall q :: p <= q < |pattern| ==> Piece(pattern, text, cuts, q)
  }

  lemma {:induction false} CutOf(pattern: string, text: string, p: nat, t: nat) returns (cuts: seq<nat>)
    requires p <= |pattern| && t <= |text| && MatchesFrom(pattern, text, p, t)
    ensures Cutting(pattern, text, p, t, cuts)
    decreases |pattern| - p, |text| - t
  {
    if p == |pattern| {
      cuts := seq(|pattern| + 1, _ => t);
    } else {
      var rest: seq<nat>;
      if pattern[p] == '*' && !MatchesFrom(pattern, text, p + 1, t) {
        rest := CutOf(pattern, text, p, t + 1);
        assert Piece(pattern, text, rest, p);
      } else {
        rest := CutOf(pattern, text, p + 1, if pattern[p] == '*' then t else t + 1);
      }
      cuts := rest[p := t];
      forall q | p < q < |pattern| ensures Piece(pattern, text, cuts, q) {
        assert Piece(pattern, text, rest, q);
      }
    }
  }

  lemma {:induction false} CutMatches(pattern: string, text: string, p: nat, t: nat, cuts: seq<nat>)
    requires p <= |pattern| && t <= |text| && Cutting(pattern, text, p, t, cuts)
    ensures MatchesFrom(pattern, text, p, t)
    decreases |pattern| - p
  {
    if p == |pattern| {
    } else {
      assert Piece(pattern, text, cuts, p);
      CutMatches(pattern, text, p + 1, cuts[p + 1], cuts);
      if pattern[p] == '*' {
        StarAbsorbs(pattern, text, p, t, cuts[p + 1]);
      }
    }
  }

  /** The recursive reading holds exactly when the text can be cut into one piece per pattern character. */
  lemma MatchesIffCut(pattern: string, text: string)
    ensures Matches(pattern, text) <==> exists cuts :: Cutting(pattern, text, 0, 0, cuts)
  {
    if Matches(pattern, text) {
      var cuts := CutOf(pattern, text, 0, 0);
    }
    forall cuts | Cutting(pattern, text, 0, 0, cuts)
      ensures Matches(pattern, text)
    {
      CutMatches(pattern, text, 0, 0, cuts);
    }
  }

  // --- what a star and a star-free stretch do --------------------------------------------------

  /** A star may swallow any run of the text. */
  lemma {:induction false} StarAbsorbs(pattern: string, text: string, p: nat, t: nat, k: nat)
    requires p < |pattern| && pattern[p] == '*' && t <= k <= |text|
    requires MatchesFrom(pattern, text, p, k) || MatchesFrom(pattern, text, p + 1, k)
    ensures MatchesFrom(pattern, text, p, t)
    decreases k - t
  {
    if t == k {
    } else {
      StarAbsorbs(pattern, text, p, t + 1, k);
    }
  }

  /** ... and must have swallowed one for what follows it to match. */
  lemma {:induction false} StarSwallowed(pattern: string, text: string, p: nat, t: nat) returns (k: nat)
    requires p < |pattern| && pattern[p] == '*' && t <= |text| && MatchesFrom(pattern, text, p, t)
    ensures t <= k <= |text| && MatchesFrom(pattern, text, p + 1, k)
    decreases |text| - t
  {
    if MatchesFrom(pattern, text, p + 1, t) {
      k := t;
    } else {
      k := StarSwallowed(pattern, text, p, t + 1);
    }
  }

  ghost predicate StarFree(pattern: string, p: nat, n: nat) {
    p + n <= |pattern| && forall i :: p <= i < p + n ==> pattern[i] != '*'
  }

  /** The `n` pattern characters from `p` on, none a star, stand for the `n` text characters from `t` on. */
  ghost predicate Stretch(pattern: string, text: string, p: nat, t: nat, n: nat) {
    && StarFree(pattern, p, n)
    && t + n <= |text|
    && forall i :: p <= i < p + n ==> Single(pattern[i], text[i - p + t])
  }

  /** A star-free stretch consumes exactly as many characters as it has. */
  lemma {:induction false} StretchThen(pattern: string, text: string, p: nat, t: nat, n: nat)
    requires StarFree(pattern, p, n) && t <= |text|
    ensures MatchesFrom(pattern, text, p, t) <==>
            Stretch(pattern, text, p, t, n) && MatchesFrom(pattern, text, p + n, t + n)
    decreases n
  {
    if n > 0 && t < |text| && Single(pattern[p], text[t]) {
      StretchThen(pattern, text, p + 1, t + 1, n - 1);
    }
  }

  /** Exchange: once a star at `p` followed by a stretch has been placed at the first spot where the
      stretch fits, a match of everything may be taken to keep that spot, provided what follows
      begins with a star or the text is used up. This is why remembering only the last star is enough. */
  lemma KeepFirstSpot(pattern: string, text: string, p: nat, t: nat, n: nat)
    requires p < |pattern| && pattern[p] == '*' && Stretch(pattern, text, p + 1, t, n)
    requires t + n == |text| || (p + 1 + n < |pattern| && pattern[p + 1 + n] == '*')
    ensures MatchesFrom(pattern, text, p, t) <==> MatchesFrom(pattern, text, p + 1 + n, t + n)
  {
    StretchThen(pattern, text, p + 1, t, n);
    if MatchesFrom(pattern, text, p, t) {
      var k := StarSwallowed(pattern, text, p, t);
      StretchThen(pattern, text, p + 1, k, n);
      if t + n < |text| {
        StarAbsorbs(pattern, text, p + 1 + n, t + n, k + n);
      }
    }
  }

  /** A stretch that cannot be completed at this spot sends the star one character on. */
  lemma GiveUpSpot(pattern: string, text: string, p: nat, t: nat, n: nat)
    requires p < |pattern| && pattern[p] == '*' && StarFree(pattern, p + 1, n) && t + n < |text|
    requires p + 1 + n == |pattern| || (pattern[p + 1 + n] != '*' && !Single(pattern[p + 1 + n], text[t + n]))
    ensures MatchesFrom(pattern, text, p, t) <==> MatchesFrom(pattern, text, p, t + 1)
  {
    StretchThen(pattern, text, p + 1, t, n);
  }

  lemma {:induction false} OnlyStarsMatchNothing(pattern: string, text: string, p: nat)
    requires p <= |pattern|
    ensures MatchesFrom(pattern, text, p, |text|) <==> forall i :: p <= i < |pattern| ==> pattern[i] == '*'
    decreases |pattern| - p
  {
    if p == |pattern| {
    } else {
      OnlyStarsMatchNothing(pattern, text, p + 1);
    }
  }

  // --- the loop -------------------------------------------------------------------------------

  /** The loop's state is faithful: either no star was met and the two suffixes are left to
      decide, or the last star is, against the text from the spot it was last tried at; since
      then a star-free stretch has been matched. */
  ghost predicate Faithful(pattern: string, text: string, p: int, t: int, fallbackP: int, fallbackT: int) {
    && 0 <= p <= |pattern| && 0 <= t <= |text|
    && if fallbackP < 0 then
         fallbackP == fallbackT == -1 && (Matches(pattern, text) <==> MatchesFrom(pattern, text, p, t))
       else
         && fallbackP < p && 0 <= fallbackT && p - fallbackP - 1 == t - fallbackT
         && pattern[fallbackP] == '*'
         && Stretch(pattern, text, fallbackP + 1, fallbackT, t - fallbackT)
         && (Matches(pattern, text) <==> MatchesFrom(pattern, text, fallbackP, fallbackT))
  }

  /** A star is met: from now on it is the only spot to fall back to. */
  lemma StarMet(pattern: string, text: string, p: nat, t: nat, fallbackP: int, fallbackT: int)
    requires Faithful(pattern, text, p, t, fallbackP, fallbackT) && p < |pattern| && pattern[p] == '*'
    ensures Faithful(pattern, text, p + 1, t, p, t)
  {
    if 0 <= fallbackP {
      KeepFirstSpot(pattern, text, fallbackP, fallbackT, t - fallbackT);
    }
  }

  lemma CharacterMatched(pattern: string, text: string, p: nat, t: nat, fallbackP: int, fallbackT: int)
    requires Faithful(pattern, text, p, t, fallbackP, fallbackT) && p < |pattern| && t < |text|
    requires pattern[p] != '*' && (pattern[p] == '?' || pattern[p] == text[t])
    ensures Faithful(pattern, text, p + 1, t + 1, fallbackP, fallbackT)
  {
  }

  /** Neither a star nor a character matches: the star is tried against the next spot, if there was one. */
  lemma Mismatch(pattern: string, text: string, p: nat, t: nat, fallbackP: int, fallbackT: int)
    requires Faithful(pattern, text, p, t, fallbackP, fallbackT) && t < |text|
    requires p < |pattern| ==> pattern[p] != '*' && pattern[p] != '?' && pattern[p] != text[t]
    ensures fallbackP < 0 ==> !Matches(pattern, text)
    ensures fallbackP >= 0 ==> Faithful(pattern, text, fallbackP + 1, fallbackT + 1, fallbackP, fallbackT + 1)
  {
    if 0 <= fallbackP {
      GiveUpSpot(pattern, text, fallbackP, fallbackT, t - fallbackT);
    }
  }

  lemma TextConsumed(pattern: string, text: string, p: nat, fallbackP: int, fallbackT: int)
    requires Faithful(pattern, text, p, |text|, fallbackP, fallbackT)
    ensures Matches(pattern, text) <==> forall i :: p <= i < |pattern| ==> pattern[i] == '*'
  {
    if 0 <= fallbackP {
      KeepFirstSpot(pattern, text, fallbackP, fallbackT, |text| - fallbackT);
    }
    OnlyStarsMatchNothing(pattern, text, p);
  }

  method WildcardMatch(pattern: string, text: string) returns (r: bool)
    ensures r == Matches(pattern, text)
  {
    var P, T := |pattern|, |text|;
    var p, fallbackP := 0, -1;
    var t, fallbackT := 0, -1;
    while t < T
      invariant 0 <= p <= P && -1 <= fallbackP < P && -1 <= fallbackT <= t <= T
      invariant Faithful(pattern, text, p, t, fallbackP, fallbackT)
      decreases T - fallbackT, P - p
    {
      if p < P && pattern[p] == '*' {
        StarMet(pattern, text, p, t, fallbackP, fallbackT);
        fallbackP := p;
        p := p + 1;
        fallbackT := t;
      } else if p < P && (pattern[p] == '?' || pattern[p] == text[t]) {
        CharacterMatched(pattern, text, p, t, fallbackP, fallbackT);
        p := p + 1;
        t := t + 1;
      } else {
        Mismatch(pattern, text, p, t, fallbackP, fallbackT);
        if fallbackP >= 0 {
          p := fallbackP + 1;
          fallbackT := fallbackT + 1;
          t := fallbackT;
        } else {
          return false;
        }
      }
    }

    TextConsumed(pattern, text, p, fallbackP, fallbackT);
    r := OnlyStarsAreLeft(pattern, p);
  }

  /** Consume the stars at the end of the pattern. */
  method OnlyStarsAreLeft(pattern: string, start: nat) returns (r: bool)
    requires start <= |pattern|
    ensures r <==> forall i :: start <= i < |pattern| ==> pattern[i] == '*'
  {
    var p := start;
    while p < |pattern| && pattern[p] == '*'
      invariant start <= p <= |pattern|
      invariant forall i :: start <= i < p ==> pattern[i] == '*'
    {
      p := p + 1;
    }
    return p == |pattern|;
  }

  // --- choosing an interface --------------------------------------------------------------------

  lemma {:induction false} MatchesItselfFrom(name: string, p: nat)
    requires p <= |name|
    ensures MatchesFrom(name, name, p, p)
    decreases |name| - p
  {
    if p == |name| {
    } else {
      MatchesItselfFrom(name, p + 1);
      if name[p] == '*' {
        StarAbsorbs(name, name, p, p, p + 1);
      }
    }
  }

  /** Every name matches itself taken as a pattern. */
  lemma MatchesItself(name: string)
    ensures Matches(name, name)
  {
    MatchesItselfFrom(name, 0);
  }

  /** `name` is the first of `names` that the pattern matches. */
  ghost predicate FirstMatch(pattern: string, names: seq<string>, name: string) {
    exists i :: 0 <= i < |names| && names[i] == name && Matches(pattern, name)
                && forall j :: 0 <= j < i ==> !Matches(pattern, names[j])
  }

  /** Without a configured name nothing matches; `matched` is written only on success. The extra
      equality test of the source does not show in the contract: it never changes the answer. */
  method MatchInterface(configured: Option<string>, ifname: string, altnames: seq<string>, matched0: string)
    returns (found: bool, matched: string)
    ensures found <==> configured.Some? &&
                       exists name :: name in [ifname] + altnames && Matches(configured.value, name)
    ensures found ==> FirstMatch(configured.value, [ifname] + altnames, matched)
    ensures !found ==> matched == matched0
  {
    found, matched := false, matched0;
    if configured.None? {
      return;
    }
    var pattern := configured.value;
    ghost var names := [ifname] + altnames;
    MatchesItself(pattern);
    var ok := WildcardMatch(pattern, ifname);
    if pattern == ifname || ok {
      assert names[0] == ifname;
      return true, ifname;
    }
    for i := 0 to |altnames|
      invariant forall j :: 0 <= j <= i ==> !Matches(pattern, names[j])
    {
      var altname := altnames[i];
      assert names[i + 1] == altname;
      ok := WildcardMatch(pattern, altname);
      if pattern == altname || ok {
        return true, altname;
      }
    }
  }
}
