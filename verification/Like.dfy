/** Customer search: escaping user input for LIKE, and what the escaped pattern then matches. */
module Like {
  import opened Wrappers

  /** escapeLike: a backslash before each backslash, percent sign and underscore. */
  function EscapeLike(s: string): string {
    if s == "" then ""
    else (if s[0] == '\\' || s[0] == '%' || s[0] == '_' then ['\\', s[0]] else [s[0]]) + EscapeLike(s[1..])
  }

  /**
   LIKE with the default escape character (section 9.7.1 of the PostgreSQL documentation). An unescaped
   percent sign matches any text and an unescaped underscore any one character; a backslash makes the next
   pattern character literal, and a pattern ending in a lone backslash matches nothing. Characters are
   compared by `same`, so that one definition serves LIKE and ILIKE.
   */
  predicate Matches(p: string, t: string, same: (char, char) -> bool)
    decreases |p|, |t|
  {
    if p == "" then t == ""
    else if p[0] == '%' then Matches(p[1..], t, same) || (t != "" && Matches(p, t[1..], same))
    else if p[0] == '_' then t != "" && Matches(p[1..], t[1..], same)
    else if p[0] == '\\' then |p| > 1 && t != "" && same(p[1], t[0]) && Matches(p[2..], t[1..], same)
    else t != "" && same(p[0], t[0]) && Matches(p[1..], t[1..], same)
  }

  ghost predicate PrefixOf(s: string, t: string, same: (char, char) -> bool) {
    |s| <= |t| && forall i :: 0 <= i < |s| ==> same(s[i], t[i])
  }

  ghost predicate OccursAt(s: string, t: string, same: (char, char) -> bool, k: nat) {
    k <= |t| && PrefixOf(s, t[k..], same)
  }

  /** s occurs in t, character by character. */
  ghost predicate Occurs(s: string, t: string, same: (char, char) -> bool) {
    exists k: nat :: OccursAt(s, t, same, k)
  }

  lemma {:induction false} PercentMatchesAll(t: string, same: (char, char) -> bool)
    ensures Matches("%", t, same)
    decreases |t|
  {
    if t != "" {
      PercentMatchesAll(t[1..], same);
    } else {
      assert "%"[1..] == "";
    }
  }

  /** The escaped text stands for itself at the start of t. */
  lemma {:induction false} EscapedPrefix(s: string, t: string, same: (char, char) -> bool)
    ensures Matches(EscapeLike(s) + "%", t, same) <==> PrefixOf(s, t, same)
    decreases |s|
  {
    var p := EscapeLike(s) + "%";
    if s == "" {
      assert p == "%";
      PercentMatchesAll(t, same);
    } else {
      var rest := EscapeLike(s[1..]) + "%";
      if s[0] == '\\' || s[0] == '%' || s[0] == '_' {
        assert p[0] == '\\' && p[1] == s[0] && p[2..] == rest;
      } else {
        assert p[0] == s[0] && p[1..] == rest;
      }
      if t != "" {
        EscapedPrefix(s[1..], t[1..], same);
        PrefixStep(s, t, same);
      }
    }
  }

  lemma PrefixStep(s: string, t: string, same: (char, char) -> bool)
    requires s != "" && t != ""
    ensures PrefixOf(s, t, same) <==> same(s[0], t[0]) && PrefixOf(s[1..], t[1..], same)
  {
    if same(s[0], t[0]) && PrefixOf(s[1..], t[1..], same) {
      forall i | 0 <= i < |s| ensures same(s[i], t[i]) {
        assert i > 0 ==> same(s[1..][i - 1], t[1..][i - 1]);
      }
    }
  }

  lemma OccursStep(s: string, t: string, same: (char, char) -> bool)
    requires t != ""
    ensures Occurs(s, t, same) <==> PrefixOf(s, t, same) || Occurs(s, t[1..], same)
  {
    assert t[0..] == t;
    if PrefixOf(s, t, same) {
      assert OccursAt(s, t, same, 0);
    }
    if k: nat :| OccursAt(s, t[1..], same, k) {
      assert t[1..][k..] == t[k + 1..];
      assert OccursAt(s, t, same, k + 1);
    }
    if k: nat :| OccursAt(s, t, same, k) && k > 0 {
      assert t[1..][k - 1..] == t[k..];
      assert OccursAt(s, t[1..], same, k - 1);
    }
  }

  /** The search pattern matches exactly the texts in which the input occurs as it stands. */
  lemma {:induction false} EscapedSearch(s: string, t: string, same: (char, char) -> bool)
    ensures Matches("%" + EscapeLike(s) + "%", t, same) <==> Occurs(s, t, same)
    decreases |t|
  {
    var inner := EscapeLike(s) + "%";
    var p := "%" + EscapeLike(s) + "%";
    assert p == "%" + inner && p[1..] == inner;
    EscapedPrefix(s, t, same);
    if t != "" {
      EscapedSearch(s, t[1..], same);
      OccursStep(s, t, same);
    } else {
      assert PrefixOf(s, t, same) ==> OccursAt(s, t, same, 0);
    }
  }

  // ----- findAll -----

  datatype Customer = Customer(fullName: string, phone: Option<string>)

  /** The filter of findAll: no filter for an empty search, else name or phone by pattern. */
  predicate Selected(search: Option<string>, c: Customer, same: (char, char) -> bool) {
    if search.None? || search.value == "" then true
    else
      var pattern := "%" + EscapeLike(search.value) + "%";
      Matches(pattern, c.fullName, same) || (c.phone.Some? && Matches(pattern, c.phone.value, same))
  }

  /** A customer is found exactly when nothing is searched for or the text occurs in the name or the phone. */
  lemma SearchFinds(search: Option<string>, c: Customer, same: (char, char) -> bool)
    ensures Selected(search, c, same) <==>
            || search.None? || search.value == "" || Occurs(search.value, c.fullName, same)
            || (c.phone.Some? && Occurs(search.value, c.phone.value, same))
  {
    if search.Some? {
      EscapedSearch(search.value, c.fullName, same);
      if c.phone.Some? {
        EscapedSearch(search.value, c.phone.value, same);
      }
    }
  }

  /** What the escape guards against: bare wildcards match any text and any one character. */
  lemma WildcardsMatch(t: string, same: (char, char) -> bool)
    ensures Matches("%", t, same)
    ensures Matches("_", t, same) <==> |t| == 1
  {
    PercentMatchesAll(t, same);
    assert "_"[1..] == "";
  }

  /** Without the escape a percent sign would find everybody. */
  lemma UnescapedFindsAll(t: string, same: (char, char) -> bool)
    ensures Matches("%%%", t, same)
  {
    PercentMatchesAll(t, same);
    assert "%%%"[1..] == "%%" && "%%"[1..] == "%";
    assert Matches("%%", t, same);
  }
}
