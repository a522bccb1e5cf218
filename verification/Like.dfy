/** The database's LIKE operator, by which the listings select their names. */
module Like {

  /** LIKE ignores the case of ASCII letters. */
  function Lower(c: char): char {
    if 'A' <= c <= 'Z' then (c as int - 'A' as int + 'a' as int) as char else c
  }

  /** `%` stands for any text, `_` for any one character. */
  predicate Matches(pattern: string, s: string)
    decreases |pattern|, |s|
  {
    if pattern == [] then s == []
    else if pattern[0] == '%' then Matches(pattern[1..], s) || (s != [] && Matches(pattern, s[1..]))
    else s != [] && (pattern[0] == '_' || Lower(pattern[0]) == Lower(s[0])) && Matches(pattern[1..], s[1..])
  }

  /** The selection of the listings: name LIKE prefix || '%'. */
  predicate Selects(prefix: string, name: string) {
    Matches(prefix + "%", name)
  }

  predicate IsLetter(c: char) {
    'A' <= c <= 'Z' || 'a' <= c <= 'z'
  }

  predicate Plain(c: char) {
    c != '%' && c != '_' && !IsLetter(c)
  }

  predicate AllPlain(prefix: string) {
    forall i | 0 <= i < |prefix| :: Plain(prefix[i])
  }

  lemma {:induction false} PercentMatchesAll(s: string)
    ensures Matches("%", s)
    decreases |s|
  {
    if s != [] {
      PercentMatchesAll(s[1..]);
    } else {
      assert Matches("%"[1..], s);
    }
  }

  /** One name fits a pattern of the same length character by character. */
  predicate Fits(prefix: string, s: string) {
    && |prefix| <= |s|
    && forall i | 0 <= i < |prefix| ::
         prefix[i] == '%' || prefix[i] == '_' || Lower(prefix[i]) == Lower(s[i])
  }

  lemma {:induction false} FittingIsSelected(prefix: string, s: string)
    requires Fits(prefix, s)
    ensures Selects(prefix, s)
    decreases |prefix|
  {
    var pattern := prefix + "%";
    if prefix == [] {
      assert pattern == "%";
      PercentMatchesAll(s);
    } else {
      assert pattern[1..] == prefix[1..] + "%";
      FittingIsSelected(prefix[1..], s[1..]);
      assert pattern[0] == prefix[0];
      if prefix[0] == '%' {
        SkipOne(pattern, s);
      }
    }
  }

  lemma SkipOne(pattern: string, s: string)
    requires pattern != [] && pattern[0] == '%' && s != [] && Matches(pattern[1..], s[1..])
    ensures Matches(pattern, s)
  {
    assert Matches(pattern, s[1..]);
  }

  /** The selection never misses a name that begins with the prefix. */
  lemma LiteralPrefixIsSelected(prefix: string, name: string)
    requires prefix <= name
    ensures Selects(prefix, name)
  {
    FittingIsSelected(prefix, name);
  }

  lemma {:induction false} PlainSelectsLiterally(prefix: string, name: string)
    requires AllPlain(prefix) && Selects(prefix, name)
    ensures prefix <= name
    decreases |prefix|
  {
    if prefix == [] {
    } else {
      var pattern := prefix + "%";
      assert pattern[0] == prefix[0] && pattern[1..] == prefix[1..] + "%";
      assert Plain(prefix[0]);
      PlainSelectsLiterally(prefix[1..], name[1..]);
    }
  }

  /** Another character that the pattern's character also matches. */
  function Confused(c: char): char
    requires !Plain(c)
  {
    if c == '%' || c == '_' then '.'
    else if 'A' <= c <= 'Z' then Lower(c)
    else (c as int - 'a' as int + 'A' as int) as char
  }

  lemma ConfusedIsSelected(prefix: string, i: nat)
    requires i < |prefix| && !Plain(prefix[i])
    ensures Selects(prefix, prefix[i := Confused(prefix[i])])
    ensures !(prefix <= prefix[i := Confused(prefix[i])])
  {
    var name := prefix[i := Confused(prefix[i])];
    assert name[i] != prefix[i];
    FittingIsSelected(prefix, name);
  }

  /** Prefix listing selects exactly the names that begin with the prefix if and only
      if the prefix contains no `%`, no `_` and no ASCII letter. */
  lemma PrefixIsLiteralExactly(prefix: string)
    ensures (forall name :: Selects(prefix, name) <==> prefix <= name) <==> AllPlain(prefix)
  {
    if AllPlain(prefix) {
      forall name ensures Selects(prefix, name) <==> prefix <= name {
        if Selects(prefix, name) {
          PlainSelectsLiterally(prefix, name);
        }
        if prefix <= name {
          LiteralPrefixIsSelected(prefix, name);
        }
      }
    } else {
      var i :| 0 <= i < |prefix| && !Plain(prefix[i]);
      ConfusedIsSelected(prefix, i);
    }
  }

  // --------------------------------------------- what a prefix selects exactly

  /** The same character, or the same ASCII letter in the other case. */
  predicate SameLetter(a: char, b: char) {
    || a == b
    || ('A' <= a <= 'Z' && b as int == a as int + 32)
    || ('A' <= b <= 'Z' && a as int == b as int + 32)
  }

  lemma LowerIsLetterwise(a: char, b: char)
    ensures Lower(a) == Lower(b) <==> SameLetter(a, b)
  {
  }

  /** The name begins like the prefix, letters in either case and `_` standing for any
      one character. */
  predicate BeginsLike(prefix: string, name: string) {
    && |prefix| <= |name|
    && forall i | 0 <= i < |prefix| :: prefix[i] == '_' || SameLetter(prefix[i], name[i])
  }

  /** A prefix without `%` selects exactly the names that begin like it. */
  lemma {:induction false} SelectsExactly(prefix: string, name: string)
    requires '%' !in prefix
    ensures Selects(prefix, name) <==> BeginsLike(prefix, name)
    decreases |prefix|
  {
    var pattern := prefix + "%";
    if prefix == [] {
      assert pattern == "%";
      PercentMatchesAll(name);
    } else {
      assert pattern[0] == prefix[0] && pattern[1..] == prefix[1..] + "%" && prefix[0] in prefix;
      if name != [] {
        LowerIsLetterwise(prefix[0], name[0]);
        SelectsExactly(prefix[1..], name[1..]);
        BeginsLikeCons(prefix, name);
      }
    }
  }

  lemma BeginsLikeCons(prefix: string, name: string)
    requires prefix != [] && name != []
    ensures BeginsLike(prefix, name)
       <==> (prefix[0] == '_' || SameLetter(prefix[0], name[0])) && BeginsLike(prefix[1..], name[1..])
  {
    if BeginsLike(prefix[1..], name[1..]) {
      assert forall i | 1 <= i < |prefix| :: prefix[i] == prefix[1..][i - 1] && name[i] == name[1..][i - 1];
    }
  }

  /** `%` stands for any text: what follows it selects behind any part of the name. */
  lemma {:induction false} PercentExactly(rest: string, s: string)
    ensures Matches("%" + rest, s) <==> exists k :: 0 <= k <= |s| && Matches(rest, s[k..])
    decreases |s|
  {
    var pattern := "%" + rest;
    assert pattern[0] == '%' && pattern[1..] == rest && s[0..] == s;
    if s != [] {
      PercentExactly(rest, s[1..]);
      if k :| 0 <= k <= |s[1..]| && Matches(rest, s[1..][k..]) {
        assert s[1..][k..] == s[k + 1..];
      }
      if k :| 1 <= k <= |s| && Matches(rest, s[k..]) {
        assert s[1..][k - 1..] == s[k..];
      }
    }
  }
}
