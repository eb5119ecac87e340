/** Escaping text for markup: five in-place replacement passes, one per markup
    character, into the predefined entities of section 4.6 of XML 1.0.

    The passes are proved equal to escaping each character once, and that only
    because the ampersand pass comes first.
 */
module Sanitize {

  const TABLE: seq<char> := ['&', '<', '>', '"', '\'']

  predicate Markup(c: char) {
    c in TABLE
  }

  function Entity(c: char): string
    requires Markup(c)
  {
    if c == '&' then "&amp;"
    else if c == '<' then "&lt;"
    else if c == '>' then "&gt;"
    else if c == '"' then "&quot;"
    else "&apos;"
  }

  /** One pass: every `c` becomes its entity. */
  function Subst(c: char, s: string): string
    requires Markup(c)
  {
    if s == [] then [] else (if s[0] == c then Entity(c) else [s[0]]) + Subst(c, s[1..])
  }

  /** Passes one after the other. */
  function Passes(table: seq<char>, s: string): string
    requires forall c :: c in table ==> Markup(c)
  {
    if table == [] then s else Passes(table[1..], Subst(table[0], s))
  }

  /** The reference: each character on its own, once. */
  function Escape(s: string): string {
    if s == [] then [] else (if Markup(s[0]) then Entity(s[0]) else [s[0]]) + Escape(s[1..])
  }

  // --- the passes in place -------------------------------------------------------------------------

  /** The first `c` in `s` at or after `from`, or the length of `s`. */
  method Find(s: string, c: char, from: nat) returns (at: nat)
    requires from <= |s|
    ensures from <= at <= |s| && (at < |s| ==> s[at] == c)
    ensures forall i :: from <= i < at ==> s[i] != c
  {
    at := from;
    while at < |s| && s[at] != c
      invariant from <= at <= |s|
      invariant forall i :: from <= i < at ==> s[i] != c
    {
      at := at + 1;
    }
  }

  lemma PlainThenMarkup(c: char, s: string, done: nat, at: nat)
    requires Markup(c) && done <= at <= |s| && c !in s[done..at]
    ensures Subst(c, s[..at]) == Subst(c, s[..done]) + s[done..at]
    ensures at < |s| && s[at] == c ==> Subst(c, s[..at + 1]) == Subst(c, s[..at]) + Entity(c)
  {
    assert s[..at] == s[..done] + s[done..at];
    SubstAppend(c, s[..done], s[done..at]);
    SubstNothing(c, s[done..at]);
    if at < |s| && s[at] == c {
      assert s[..at + 1] == s[..at] + [c] && [c][1..] == [] && Entity(c) + [] == Entity(c);
      SubstAppend(c, s[..at], [c]);
    }
  }

  /** The text up to `startpoint` is escaped, the rest is still the original's from `done` on. */
  ghost predicate HalfWay(c: char, s: string, str: string, startpoint: nat, done: nat)
    requires Markup(c)
  {
    done <= |s| && startpoint == |Subst(c, s[..done])| && str == Subst(c, s[..done]) + s[done..]
  }

  /** Passing over plain text keeps the split. */
  lemma SkipPlain(c: char, s: string, str: string, startpoint: nat, done: nat, at: nat)
    requires Markup(c) && HalfWay(c, s, str, startpoint, done)
    requires startpoint <= at <= |str| && forall i :: startpoint <= i < at ==> str[i] != c
    ensures HalfWay(c, s, str, at, done + (at - startpoint))
  {
    var k := done + (at - startpoint);
    forall i | done <= i < k ensures s[i] != c {
      assert str[startpoint + (i - done)] == s[i];
    }
    PlainThenMarkup(c, s, done, k);
    assert s[done..] == s[done..k] + s[k..];
  }

  lemma ReplaceOne(c: char, s: string, str: string, at: nat, done: nat)
    requires Markup(c) && HalfWay(c, s, str, at, done) && at < |str| && str[at] == c
    ensures done < |s| && HalfWay(c, s, str[..at] + Entity(c) + str[at + 1..], at + |Entity(c)|, done + 1)
  {
    assert s[done] == str[at] && s[done..done] == [];
    PlainThenMarkup(c, s, done, done);
    assert str[..at] == Subst(c, s[..done]);
    assert str[at + 1..] == s[done + 1..];
  }

  method ReplaceAll(s: string, c: char) returns (str: string)
    requires Markup(c)
    ensures str == Subst(c, s)
  {
    str := s;
    var startpoint: nat := 0;
    ghost var done: nat := 0;
    while true
      invariant HalfWay(c, s, str, startpoint, done)
      decreases |s| - done
    {
      var at := Find(str, c, startpoint);
      SkipPlain(c, s, str, startpoint, done, at);
      done := done + (at - startpoint);
      if at == |str| {
        assert s[..done] == s;
        break;
      }
      ReplaceOne(c, s, str, at, done);
      done := done + 1;
      str := str[..at] + Entity(c) + str[at + 1..];
      startpoint := at + |Entity(c)|;
    }
  }

  method SanitizeString(s: string) returns (str: string)
    ensures str == Escape(s)
  {
    str := s;
    for i := 0 to |TABLE|
      invariant Passes(TABLE, s) == Passes(TABLE[i..], str)
    {
      assert TABLE[i..][0] == TABLE[i] && TABLE[i..][1..] == TABLE[i + 1..];
      str := ReplaceAll(str, TABLE[i]);
    }
    PassesAreEscape(TABLE, s);
  }

  // --- why the passes do not disturb each other ------------------------------------------------------

  lemma {:induction false} SubstAppend(c: char, a: string, b: string)
    requires Markup(c)
    ensures Subst(c, a + b) == Subst(c, a) + Subst(c, b)
  {
    if a == [] {
      assert a + b == b;
    } else {
      assert (a + b)[0] == a[0] && (a + b)[1..] == a[1..] + b;
      SubstAppend(c, a[1..], b);
    }
  }

  lemma {:induction false} SubstNothing(c: char, s: string)
    requires Markup(c) && c !in s
    ensures Subst(c, s) == s
  {
    if s == [] {
    } else {
      SubstNothing(c, s[1..]);
    }
  }

  lemma {:induction false} PassesAppend(table: seq<char>, a: string, b: string)
    requires forall c :: c in table ==> Markup(c)
    ensures Passes(table, a + b) == Passes(table, a) + Passes(table, b)
    decreases |table|
  {
    if table == [] {
    } else {
      SubstAppend(table[0], a, b);
      PassesAppend(table[1..], Subst(table[0], a), Subst(table[0], b));
    }
  }

  lemma {:induction false} PassesNothing(table: seq<char>, s: string)
    requires forall c :: c in table ==> Markup(c) && c !in s
    ensures Passes(table, s) == s
    decreases |table|
  {
    if table == [] {
    } else {
      SubstNothing(table[0], s);
      PassesNothing(table[1..], s);
    }
  }

  /** Every markup character has one pass. */
  ghost predicate Complete(table: seq<char>) {
    && (forall c :: c in table <==> Markup(c))
    && (forall i, j :: 0 <= i < j < |table| ==> table[i] != table[j])
  }

  lemma SubstOne(c: char)
    requires Markup(c)
    ensures Subst(c, [c]) == Entity(c) && Escape([c]) == Entity(c)
  {
    assert [c][1..] == [] && Entity(c) + [] == Entity(c);
  }

  lemma NotInEntity(c: char, d: char)
    requires Markup(c) && Markup(d) && d != '&'
    ensures d !in Entity(c)
  {
    assert forall i :: 0 <= i < |Entity(c)| ==> Entity(c)[i] != d;
  }

  /** After the ampersand pass the others see each character by itself. */
  lemma {:induction false} OneCharacter(table: seq<char>, c: char)
    requires forall d :: d in table ==> Markup(d)
    requires forall i, j :: 0 <= i < j < |table| ==> table[i] != table[j]
    requires table != [] ==> '&' !in table[1..]
    ensures Passes(table, [c]) == if c in table then Entity(c) else [c]
    decreases |table|
  {
    if table == [] {
    } else {
      if table[0] == c {
        SubstOne(c);
        forall d | d in table[1..] ensures d !in Entity(c) {
          NotInEntity(c, d);
        }
        PassesNothing(table[1..], Entity(c));
      } else {
        SubstNothing(table[0], [c]);
        OneCharacter(table[1..], c);
      }
    }
  }

  lemma {:induction false} PassesAreEscape(table: seq<char>, s: string)
    requires Complete(table) && table != [] && table[0] == '&'
    ensures Passes(table, s) == Escape(s)
    decreases |s|
  {
    if s == [] {
      PassesNothing(table, s);
    } else {
      assert s == [s[0]] + s[1..];
      PassesAppend(table, [s[0]], s[1..]);
      OneCharacter(table, s[0]);
      PassesAreEscape(table, s[1..]);
    }
  }

  lemma {:induction false} SubstGrows(c: char, s: string)
    requires Markup(c)
    ensures |Subst(c, s)| >= |s|
    ensures c in s ==> |Subst(c, s)| > |s|
    ensures c != '&' && '&' in s ==> '&' in Subst(c, s)
  {
    if s == [] {
    } else {
      SubstGrows(c, s[1..]);
    }
  }

  lemma {:induction false} PassesGrow(table: seq<char>, s: string)
    requires forall c :: c in table ==> Markup(c)
    ensures |Passes(table, s)| >= |s|
    ensures '&' in table && '&' in s ==> |Passes(table, s)| > |s|
    decreases |table|
  {
    if table == [] {
    } else {
      SubstGrows(table[0], s);
      PassesGrow(table[1..], Subst(table[0], s));
    }
  }

  lemma LateAmpersand(table: seq<char>)
    requires Complete(table) && table != [] && table[0] != '&'
    ensures Passes(table, [table[0]]) != Escape([table[0]])
  {
    var c := table[0];
    assert c in table && '&' in table;
    SubstOne(c);
    assert Entity(c)[0] == '&' && '&' in table[1..];
    PassesGrow(table[1..], Entity(c));
  }

  /** The order matters exactly in this: five passes escape every text if and only if the ampersand's is first. */
  lemma AmpersandFirst(table: seq<char>)
    requires Complete(table) && table != []
    ensures (forall s :: Passes(table, s) == Escape(s)) <==> table[0] == '&'
  {
    if table[0] == '&' {
      forall s ensures Passes(table, s) == Escape(s) {
        PassesAreEscape(table, s);
      }
    } else {
      LateAmpersand(table);
    }
  }

  // --- the escaped text --------------------------------------------------------------------------------

  /** The markup character whose entity `s` begins with, if any. */
  ghost predicate Begins(s: string, c: char) {
    Markup(c) && Entity(c) <= s
  }

  /** Reading entities back. */
  ghost function Decode(s: string): string {
    if s == [] then []
    else if exists c :: Begins(s, c) then
      var c :| Begins(s, c);
      [c] + Decode(s[|Entity(c)|..])
    else [s[0]] + Decode(s[1..])
  }

  /** The predefined entities of section 4.6 of XML 1.0, and no other character is replaced. */
  lemma PredefinedEntities(c: char)
    ensures Escape("&") == "&amp;" && Escape("<") == "&lt;" && Escape(">") == "&gt;"
    ensures Escape("\"") == "&quot;" && Escape("'") == "&apos;"
    ensures c !in "&<>\"'" ==> Escape([c]) == [c]
  {
    SubstOne('&');
    SubstOne('<');
    SubstOne('>');
    SubstOne('"');
    SubstOne('\'');
    assert [c][1..] == [] && Escape([]) == [];
  }

  /** No text begins with two entities. */
  lemma OneEntity(s: string, c: char, d: char)
    requires Begins(s, c) && Begins(s, d)
    ensures c == d
  {
    assert s[1] == Entity(c)[1] == Entity(d)[1] && s[2] == Entity(c)[2] == Entity(d)[2];
  }

  lemma DecodeEntity(c: char, rest: string)
    requires Markup(c)
    ensures Decode(Entity(c) + rest) == [c] + Decode(rest)
  {
    var e := Entity(c) + rest;
    assert Begins(e, c);
    forall d | Begins(e, d) ensures d == c {
      OneEntity(e, d, c);
    }
    assert e[|Entity(c)|..] == rest;
  }

  lemma DecodePlain(c: char, rest: string)
    requires !Markup(c)
    ensures Decode([c] + rest) == [c] + Decode(rest)
  {
    var e := [c] + rest;
    assert e[0] != '&' && e[1..] == rest;
    forall d ensures !Begins(e, d) {
      if Markup(d) {
        assert Entity(d)[0] == '&';
      }
    }
    hide Entity, Begins;
  }

  /** Decoding gives back the text that was escaped. */
  lemma {:induction false} DecodeEscape(s: string)
    ensures Decode(Escape(s)) == s
  {
    if s == [] {
    } else {
      DecodeEscape(s[1..]);
      if Markup(s[0]) {
        DecodeEntity(s[0], Escape(s[1..]));
      } else {
        DecodePlain(s[0], Escape(s[1..]));
      }
    }
  }

  /** Markup characters occur in the output only as the ampersands that begin its entities. */
  lemma {:induction false} NoBareMarkup(s: string, i: nat)
    requires i < |Escape(s)| && Markup(Escape(s)[i])
    ensures Escape(s)[i] == '&' && exists c :: Begins(Escape(s)[i..], c)
    decreases |s|
  {
    var head := if Markup(s[0]) then Entity(s[0]) else [s[0]];
    if i < |head| {
      assert i == 0;
      assert Entity(s[0]) <= Escape(s);
      assert Escape(s)[0..] == Escape(s) && Begins(Escape(s), s[0]);
    } else {
      assert Escape(s)[i..] == Escape(s[1..])[i - |head|..];
      NoBareMarkup(s[1..], i - |head|);
    }
  }
}
