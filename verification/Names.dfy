/** DNS labels and the name forms built from them. */
module Names {

  predicate LabelChar(c: char)
  {
    ('a' <= c <= 'z') || ('0' <= c <= '9') || c == '-'
  }

  /** A nonempty run of lower-case letters, digits and inner dashes. */
  predicate Label(s: string, limit: nat)
  {
    && 0 < |s| <= limit
    && (forall i :: 0 <= i < |s| ==> LabelChar(s[i]))
    && s[0] != '-' && s[|s| - 1] != '-'
  }

  /** The parts of `s` between separators; at least one. */
  function Split(s: string, separator: char): (parts: seq<string>)
    ensures |parts| >= 1
  {
    if s == [] then [[]]
    else
      var rest := Split(s[1..], separator);
      if s[0] == separator then [[]] + rest else [[s[0]] + rest[0]] + rest[1..]
  }

  predicate Subdomain(s: string, limit: nat)
  {
    |s| <= limit && forall part :: part in Split(s, '.') ==> Label(part, 63)
  }

  predicate PoolName(s: string)
  {
    |s| <= 253 && forall part :: part in Split(s, '/') ==> Subdomain(part, 253)
  }

  /** Characters of the parts are characters of the whole. */
  lemma {:induction false} SplitChars(s: string, separator: char)
    ensures forall i :: 0 <= i < |s| && s[i] != separator ==> exists part :: part in Split(s, separator) && s[i] in part
  {
    if s != [] {
      SplitChars(s[1..], separator);
      var rest := Split(s[1..], separator);
      var parts := Split(s, separator);
      forall i | 0 <= i < |s| && s[i] != separator
        ensures exists part :: part in parts && s[i] in part
      {
        if i == 0 {
          assert parts[0] == [s[0]] + rest[0];
          assert parts[0] in parts && s[i] in parts[0];
        } else {
          assert s[1..][i - 1] == s[i];
          var part :| part in rest && s[i] in part;
          var k :| 0 <= k < |rest| && rest[k] == part;
          if s[0] == separator {
            assert parts[k + 1] == part;
            assert parts[k + 1] in parts;
          } else if k == 0 {
            assert parts[0] == [s[0]] + part;
            assert parts[0] in parts && s[i] in parts[0];
          } else {
            assert parts[k] == part;
            assert parts[k] in parts;
          }
        }
      }
    }
  }

  /** Subdomains hold only label characters and dots. */
  lemma SubdomainChars(s: string, limit: nat)
    requires Subdomain(s, limit)
    ensures forall i :: 0 <= i < |s| ==> LabelChar(s[i]) || s[i] == '.'
  {
    SplitChars(s, '.');
    forall i | 0 <= i < |s| && s[i] != '.'
      ensures LabelChar(s[i])
    {
      var part :| part in Split(s, '.') && s[i] in part;
      var j :| 0 <= j < |part| && part[j] == s[i];
    }
  }

  /** The parts with the separator between them. */
  function Joined(parts: seq<string>, separator: char): string
    requires |parts| >= 1
  {
    if |parts| == 1 then parts[0] else parts[0] + ([separator] + Joined(parts[1..], separator))
  }

  /** Splitting undoes joining, and no part holds a separator. */
  lemma {:induction false} SplitJoins(s: string, separator: char)
    ensures Joined(Split(s, separator), separator) == s
    ensures forall part :: part in Split(s, separator) ==> separator !in part
  {
    if s != [] {
      SplitJoins(s[1..], separator);
      var rest, parts := Split(s[1..], separator), Split(s, separator);
      if s[0] == separator {
        assert parts[1..] == rest;
        assert s == [separator] + s[1..];
      } else {
        assert parts[1..] == rest[1..];
        assert s == [s[0]] + s[1..];
        JoinedHead(s[0], rest, separator);
      }
    }
  }

  lemma JoinedHead(c: char, parts: seq<string>, separator: char)
    requires |parts| >= 1
    ensures Joined([[c] + parts[0]] + parts[1..], separator) == [c] + Joined(parts, separator)
  {
    var longer := [[c] + parts[0]] + parts[1..];
    assert longer[1..] == parts[1..];
    if |parts| > 1 {
      assert ([c] + parts[0]) + ([separator] + Joined(parts[1..], separator))
          == [c] + (parts[0] + ([separator] + Joined(parts[1..], separator)));
    }
  }

  /** A label begins and ends with a lower-case letter or digit, whatever dashes lie between. */
  lemma LabelForm(s: string, limit: nat)
    ensures Label(s, limit) <==>
      && 1 <= |s| <= limit && Alphanumeric(s[0]) && Alphanumeric(s[|s| - 1])
      && forall i :: 1 <= i < |s| - 1 ==> s[i] == '-' || Alphanumeric(s[i])
  {
  }

  predicate Alphanumeric(c: char)
  {
    0x61 <= c as int <= 0x7a || 0x30 <= c as int <= 0x39
  }

  lemma {:induction false} SplitAt(a: string, rest: string, separator: char)
    requires separator !in a
    ensures Split(a + ([separator] + rest), separator) == [a] + Split(rest, separator)
  {
    var s := a + ([separator] + rest);
    if a == [] {
      assert s[1..] == rest;
    } else {
      assert s[1..] == a[1..] + ([separator] + rest);
      SplitAt(a[1..], rest, separator);
      assert ([a[1..]] + Split(rest, separator))[1..] == Split(rest, separator);
      assert [s[0]] + a[1..] == a;
    }
  }

  lemma {:induction false} SplitWhole(a: string, separator: char)
    requires separator !in a
    ensures Split(a, separator) == [a]
  {
    if a != [] {
      SplitWhole(a[1..], separator);
      assert [a[0]] + a[1..] == a;
    }
  }

  /** Joining undoes splitting, where no part holds a separator. */
  lemma {:induction false} JoinSplits(parts: seq<string>, separator: char)
    requires |parts| >= 1 && forall part :: part in parts ==> separator !in part
    ensures Split(Joined(parts, separator), separator) == parts
  {
    assert parts[0] in parts;
    if |parts| == 1 {
      SplitWhole(parts[0], separator);
    } else {
      assert forall part :: part in parts[1..] ==> part in parts;
      JoinSplits(parts[1..], separator);
      SplitAt(parts[0], Joined(parts[1..], separator), separator);
      assert [parts[0]] + parts[1..] == parts;
    }
  }

  predicate AllLabels(parts: seq<string>)
  {
    |parts| >= 1 && forall part :: part in parts ==> Label(part, 63)
  }

  ghost predicate Dotted(s: string)
  {
    exists labels :: AllLabels(labels) && s == Joined(labels, '.')
  }

  ghost predicate AllDotted(parts: seq<string>)
  {
    |parts| >= 1 && forall part :: part in parts ==> Dotted(part)
  }

  lemma DottedSplits(s: string)
    ensures Dotted(s) <==> AllLabels(Split(s, '.'))
  {
    SplitJoins(s, '.');
    if labels :| AllLabels(labels) && s == Joined(labels, '.') {
      forall part | part in labels
        ensures '.' !in part
      {
        assert Label(part, 63);
      }
      JoinSplits(labels, '.');
    }
  }

  /** A subdomain is labels joined by dots. */
  lemma SubdomainForm(s: string, limit: nat)
    ensures Subdomain(s, limit) <==> |s| <= limit && Dotted(s)
  {
    DottedSplits(s);
  }

  lemma {:induction false} JoinedHolds(parts: seq<string>, separator: char, part: string)
    requires part in parts
    ensures |part| <= |Joined(parts, separator)|
    ensures separator in part ==> separator in Joined(parts, separator)
  {
    if |parts| > 1 && part != parts[0] {
      assert part in parts[1..];
      JoinedHolds(parts[1..], separator, part);
    }
  }

  lemma DottedHasNoSlash(s: string)
    requires Dotted(s)
    ensures '/' !in s
  {
    DottedSplits(s);
    SplitChars(s, '.');
    forall i | 0 <= i < |s|
      ensures s[i] != '/'
    {
      if s[i] != '.' {
        var part :| part in Split(s, '.') && s[i] in part;
        assert Label(part, 63);
      }
    }
  }

  /** A pool name is subdomains joined by slashes. */
  lemma PoolNameForm(s: string)
    ensures PoolName(s) <==> |s| <= 253 && exists parts :: AllDotted(parts) && s == Joined(parts, '/')
  {
    SplitJoins(s, '/');
    forall part
      ensures Subdomain(part, 253) <==> |part| <= 253 && Dotted(part)
    {
      SubdomainForm(part, 253);
    }
    forall part | part in Split(s, '/')
      ensures |part| <= |s|
    {
      JoinedHolds(Split(s, '/'), '/', part);
    }
    if PoolName(s) {
      assert AllDotted(Split(s, '/'));
    }
    if parts :| AllDotted(parts) && s == Joined(parts, '/') {
      forall part | part in parts
        ensures '/' !in part
      {
        DottedHasNoSlash(part);
      }
      JoinSplits(parts, '/');
    }
  }
}
