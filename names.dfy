/**
 * The name transformers of the store layer: the capitalised event name used
 * to build the generated listener methods, the `on<Name>` gate on handler
 * method names, and the split of such a name into an upper-snake-case action
 * identifier. Only ASCII letters change case.
 */
module Names {
  import opened Wrappers

  predicate IsUpper(c: char) { 'A' <= c <= 'Z' }

  predicate IsLower(c: char) { 'a' <= c <= 'z' }

  /** ASCII `toUpperCase` of one character. */
  function ToUpper(c: char): (u: char)
    ensures !IsLower(u)
    ensures IsLower(c) ==> IsUpper(u) && u as int - 'A' as int == c as int - 'a' as int
    ensures !IsLower(c) ==> u == c
  {
    if IsLower(c) then (c as int - 32) as char else c
  }

  /** ASCII `toUpperCase` of a string. */
  function UpperString(s: string): (r: string)
    ensures |r| == |s|
    ensures forall i :: 0 <= i < |s| ==> r[i] == ToUpper(s[i])
  {
    seq(|s|, i requires 0 <= i < |s| => ToUpper(s[i]))
  }

  /** getNameFromEvent: the first character upper-cased, the rest kept. */
  function CapitalizeFirst(name: string): (r: string)
    ensures |r| == |name|
    ensures name != [] ==> r[0] == ToUpper(name[0]) && r[1..] == name[1..]
  {
    UpperString(name[..if name == [] then 0 else 1]) + name[if name == [] then 0 else 1..]
  }

  /** Capitalising an already capitalised name changes nothing. */
  lemma CapitalizeFirstIdempotent(name: string)
    ensures CapitalizeFirst(CapitalizeFirst(name)) == CapitalizeFirst(name)
  {
  }

  /** A name is left as it is exactly when it does not start with a lower-case letter. */
  lemma CapitalizeFirstFixed(name: string)
    ensures CapitalizeFirst(name) == name <==> (name == [] || !IsLower(name[0]))
  {
  }

  /** Two event names give the same capitalised name exactly when they differ at most in the case of their first letter. */
  lemma CapitalizeFirstCollision(a: string, b: string)
    ensures CapitalizeFirst(a) == CapitalizeFirst(b) <==>
              (|a| == |b| && (a != [] ==> ToUpper(a[0]) == ToUpper(b[0]) && a[1..] == b[1..]))
  {
  }

  /** The gate `^on[A-Z]` on configuration keys. */
  predicate IsValidActionName(name: string) {
    |name| >= 3 && name[0] == 'o' && name[1] == 'n' && IsUpper(name[2])
  }

  /** Length of the longest prefix of `s` without an upper-case letter (the `[^A-Z]*` run). */
  function NonUpperPrefixLength(s: string): (n: nat)
    ensures n <= |s|
    ensures forall i :: 0 <= i < n ==> !IsUpper(s[i])
    ensures n < |s| ==> IsUpper(s[n])
  {
    if s == [] || IsUpper(s[0]) then 0 else 1 + NonUpperPrefixLength(s[1..])
  }

  /** A match of the pattern `[A-Z][^A-Z]*`: an upper-case letter followed by no other. */
  predicate IsSegment(p: string) {
    |p| >= 1 && IsUpper(p[0]) && forall i :: 1 <= i < |p| ==> !IsUpper(p[i])
  }

  /**
   * `s.match` of the pattern `[A-Z][^A-Z]*` with the global flag, as a left-to-right scan: characters before an
   * upper-case letter are skipped; each upper-case letter starts a match that
   * runs up to the next upper-case letter or the end. The empty sequence stands
   * for the `null` that `match` returns when nothing matches.
   */
  function NameParts(s: string): (parts: seq<string>)
    ensures forall k :: 0 <= k < |parts| ==> IsSegment(parts[k])
    decreases |s|
  {
    if s == [] then []
    else if !IsUpper(s[0]) then NameParts(s[1..])
    else
      var n := 1 + NonUpperPrefixLength(s[1..]);
      [s[..n]] + NameParts(s[n..])
  }

  function Concat(parts: seq<string>): string {
    if parts == [] then [] else parts[0] + Concat(parts[1..])
  }

  /** `Array.prototype.join(sep)`. */
  function Join(parts: seq<string>, sep: char): string {
    if parts == [] then []
    else if |parts| == 1 then parts[0]
    else parts[0] + [sep] + Join(parts[1..], sep)
  }

  /**
   * getActionFromName: the upper-cased segments joined with `_`; `None` when
   * the name has no segment (in the source, `.map` on the `null` match throws).
   */
  function ActionFromName(name: string): (r: Option<string>)
    ensures r.None? <==> forall i :: 0 <= i < |name| ==> !IsUpper(name[i])
  {
    NamePartsEmptyIff(name);
    var parts := NameParts(name);
    if parts == [] then None else Some(Join(UpperParts(parts), '_'))
  }

  /** Each segment upper-cased (the `map(mapPart)` step). */
  function UpperParts(parts: seq<string>): (r: seq<string>)
    ensures |r| == |parts|
    ensures forall k :: 0 <= k < |parts| ==> r[k] == UpperString(parts[k])
  {
    seq(|parts|, k requires 0 <= k < |parts| => UpperString(parts[k]))
  }

  /** The scan matches every character from the first upper-case letter on, and nothing before it. */
  lemma {:induction false} NamePartsCover(s: string)
    ensures Concat(NameParts(s)) == s[NonUpperPrefixLength(s)..]
    decreases |s|
  {
    if s == [] {
    } else if !IsUpper(s[0]) {
      NamePartsCover(s[1..]);
      var m := NonUpperPrefixLength(s[1..]);
      assert NonUpperPrefixLength(s) == 1 + m;
      assert s[1..][m..] == s[1 + m..];
    } else {
      var n := 1 + NonUpperPrefixLength(s[1..]);
      var rest := NameParts(s[n..]);
      NamePartsCover(s[n..]);
      assert NonUpperPrefixLength(s[n..]) == 0;
      assert NameParts(s) == [s[..n]] + rest;
      assert ([s[..n]] + rest)[1..] == rest;
      assert Concat(NameParts(s)) == s[..n] + Concat(rest);
      assert s[..n] + s[n..] == s;
    }
  }

  /** The scan finds no segment exactly when the name has no upper-case letter. */
  lemma {:induction false} NamePartsEmptyIff(s: string)
    ensures NameParts(s) == [] <==> forall i :: 0 <= i < |s| ==> !IsUpper(s[i])
    decreases |s|
  {
    if s != [] && !IsUpper(s[0]) {
      NamePartsEmptyIff(s[1..]);
      assert forall i :: 1 <= i < |s| ==> s[i] == s[1..][i - 1];
    }
  }

  /** A name that passes the gate has segments, so its action identifier is defined. */
  lemma GatedNameHasAction(name: string)
    requires IsValidActionName(name)
    ensures ActionFromName(name).Some?
  {
  }

  /** For a gated name the segments are exactly the text after `on`: the prefix contributes nothing. */
  lemma GatedNamePartsCover(name: string)
    requires IsValidActionName(name)
    ensures |NameParts(name)| >= 1
    ensures Concat(NameParts(name)) == name[2..]
  {
    GatedNameHasAction(name);
    NamePartsCover(name);
    assert NonUpperPrefixLength(name[1..]) == 1;
  }

  /** The action identifier of a name that passes the gate. */
  function ActionOf(name: string): (action: string)
    requires IsValidActionName(name)
    ensures ActionFromName(name) == Some(action)
  {
    GatedNameHasAction(name);
    ActionFromName(name).value
  }

  /** Every character of a join is the separator or a character of one of the parts. */
  lemma {:induction false} JoinChars(parts: seq<string>, sep: char, i: nat)
    requires i < |Join(parts, sep)|
    ensures Join(parts, sep)[i] == sep ||
            exists k, j :: 0 <= k < |parts| && 0 <= j < |parts[k]| && Join(parts, sep)[i] == parts[k][j]
  {
    if |parts| == 1 {
      assert Join(parts, sep)[i] == parts[0][i];
    } else if |parts| > 1 {
      var rest := Join(parts[1..], sep);
      assert Join(parts, sep) == parts[0] + [sep] + rest;
      if i < |parts[0]| {
        assert Join(parts, sep)[i] == parts[0][i];
      } else if i > |parts[0]| {
        var i' := i - |parts[0]| - 1;
        JoinChars(parts[1..], sep, i');
        assert Join(parts, sep)[i] == rest[i'];
        if rest[i'] != sep {
          var k, j :| 0 <= k < |parts[1..]| && 0 <= j < |parts[1..][k]| && rest[i'] == parts[1..][k][j];
          assert rest[i'] == parts[k + 1][j];
        }
      }
    }
  }

  /** An action identifier contains no lower-case ASCII letter. */
  lemma ActionHasNoLowercase(name: string, action: string)
    requires ActionFromName(name) == Some(action)
    ensures forall i :: 0 <= i < |action| ==> !IsLower(action[i])
  {
    var upper := UpperParts(NameParts(name));
    forall i | 0 <= i < |action|
      ensures !IsLower(action[i])
    {
      JoinChars(upper, '_', i);
    }
  }

  /** A run without upper-case letters is measured whole. */
  lemma {:induction false} NonUpperPrefixLengthAppend(a: string, b: string)
    requires forall i :: 0 <= i < |a| ==> !IsUpper(a[i])
    ensures NonUpperPrefixLength(a + b) == |a| + NonUpperPrefixLength(b)
    decreases |a|
  {
    if a == [] {
      assert a + b == b;
    } else {
      assert (a + b)[0] == a[0];
      assert (a + b)[1..] == a[1..] + b;
      NonUpperPrefixLengthAppend(a[1..], b);
    }
  }

  /** Characters without an upper-case letter in front of the rest are skipped by the scan. */
  lemma {:induction false} NamePartsSkip(a: string, b: string)
    requires forall i :: 0 <= i < |a| ==> !IsUpper(a[i])
    ensures NameParts(a + b) == NameParts(b)
    decreases |a|
  {
    if a == [] {
      assert a + b == b;
    } else {
      assert (a + b)[0] == a[0];
      assert (a + b)[1..] == a[1..] + b;
      NamePartsSkip(a[1..], b);
    }
  }

  /** A segment followed by the end or by an upper-case letter is one match of the scan. */
  lemma NamePartsSegment(p: string, b: string)
    requires IsSegment(p)
    requires b == [] || IsUpper(b[0])
    ensures NameParts(p + b) == [p] + NameParts(b)
  {
    NonUpperPrefixLengthAppend(p[1..], b);
    assert (p + b)[1..] == p[1..] + b;
    assert (p + b)[..|p|] == p;
    assert (p + b)[|p|..] == b;
  }

  /** A run of segments is split back into exactly those segments. */
  lemma {:induction false} NamePartsOfSegments(words: seq<string>)
    requires forall k :: 0 <= k < |words| ==> IsSegment(words[k])
    ensures NameParts(Concat(words)) == words
  {
    if words != [] {
      NamePartsOfSegments(words[1..]);
      var rest := Concat(words[1..]);
      assert rest == [] || IsUpper(rest[0]) by {
        if words[1..] != [] {
          assert rest == words[1] + Concat(words[2..]);
        }
      }
      NamePartsSegment(words[0], rest);
    }
  }

  /** When the scan finds segments, the identifier is their upper-cased join. */
  lemma ActionFromParts(name: string)
    requires NameParts(name) != []
    ensures ActionFromName(name) == Some(Join(UpperParts(NameParts(name)), '_'))
  {
  }

  /** The scan of `on` followed by segments finds exactly those segments. */
  lemma OnWordsParts(words: seq<string>)
    requires forall k :: 0 <= k < |words| ==> IsSegment(words[k])
    ensures NameParts("on" + Concat(words)) == words
  {
    NamePartsOfSegments(words);
    NamePartsSkip("on", Concat(words));
  }

  /**
   * The convention stated for every handler name: `on` followed by capitalised
   * words `W1 … Wn` gives the upper-cased words joined with `_`.
   */
  lemma ActionOfWords(words: seq<string>)
    requires words != []
    requires forall k :: 0 <= k < |words| ==> IsSegment(words[k])
    ensures ActionFromName("on" + Concat(words)) == Some(Join(UpperParts(words), '_'))
  {
    OnWordsParts(words);
    ActionFromParts("on" + Concat(words));
  }

  /** The worked example of the convention: `onUserLoggedIn` gives `USER_LOGGED_IN`. */
  lemma ActionOfUserLoggedIn()
    ensures ActionFromName("onUserLoggedIn") == Some("USER_LOGGED_IN")
  {
    var words: seq<string> := ["User", "Logged", "In"];
    assert "on" + Concat(words) == "onUserLoggedIn" by {
      assert Concat(words) == "User" + ("Logged" + ("In" + Concat([])));
    }
    assert UpperParts(words) == ["USER", "LOGGED", "IN"] by {
      assert UpperString("User") == "USER";
      assert UpperString("Logged") == "LOGGED";
      assert UpperString("In") == "IN";
    }
    assert Join(["USER", "LOGGED", "IN"], '_') == "USER_LOGGED_IN" by {
      assert Join(["IN"], '_') == "IN";
      assert ["USER", "LOGGED", "IN"][1..] == ["LOGGED", "IN"];
      assert ["LOGGED", "IN"][1..] == ["IN"];
    }
    ActionOfWords(words);
  }
}
