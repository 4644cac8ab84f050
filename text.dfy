/** The JavaScript string operations the client applies to form input and to
    notification messages: `split` on one character, `join`, `trim` and
    `toLowerCase`, and the skill-list normalisation built from them. */
module Text {

  /** The code points `String.prototype.trim` removes: WhiteSpace and LineTerminator
      (sections 12.2 and 12.3 of ECMA-262). */
  predicate IsWhitespace(c: char)
  {
    var n := c as int;
    n == 0x09 || n == 0x0A || n == 0x0B || n == 0x0C || n == 0x0D || n == 0x20 ||
    n == 0xA0 || n == 0x1680 || (0x2000 <= n <= 0x200A) || n == 0x2028 || n == 0x2029 ||
    n == 0x202F || n == 0x205F || n == 0x3000 || n == 0xFEFF
  }

  /** No whitespace at either end. */
  predicate Trimmed(s: string)
  {
    |s| == 0 || (!IsWhitespace(s[0]) && !IsWhitespace(s[|s| - 1]))
  }

  /** `s.trimStart()`: drops the leading whitespace, and only that. */
  function TrimStart(s: string): (r: string)
    ensures |r| <= |s| && r == s[|s| - |r|..]
    ensures |r| > 0 ==> !IsWhitespace(r[0])
    ensures forall i :: 0 <= i < |s| - |r| ==> IsWhitespace(s[i])
    decreases |s|
  {
    if |s| > 0 && IsWhitespace(s[0]) then TrimStart(s[1..]) else s
  }

  /** `s.trimEnd()`: drops the trailing whitespace, and only that. */
  function TrimEnd(s: string): (r: string)
    ensures |r| <= |s| && r == s[..|r|]
    ensures |r| > 0 ==> !IsWhitespace(r[|r| - 1])
    ensures forall i :: |r| <= i < |s| ==> IsWhitespace(s[i])
    decreases |s|
  {
    if |s| > 0 && IsWhitespace(s[|s| - 1]) then TrimEnd(s[..|s| - 1]) else s
  }

  /** `s.trim()`: a trimmed piece of `s` obtained by dropping whitespace at both ends;
      it leaves an already trimmed string as it is. */
  function Trim(s: string): (r: string)
    ensures Trimmed(r)
    ensures Trimmed(s) ==> r == s
    ensures forall c :: c in r ==> c in s
  {
    var t := TrimStart(s);
    var r := TrimEnd(t);
    assert forall c :: c in r ==> c in t;
    r
  }

  /** Leading whitespace does not survive trimming. */
  lemma TrimLeadingSpace(x: string)
    requires Trimmed(x)
    ensures Trim(" " + x) == x
  {
    assert (" " + x)[1..] == x;
  }

  predicate HasNoUpper(s: string)
  {
    forall i :: 0 <= i < |s| ==> !('A' <= s[i] <= 'Z')
  }

  function LowerChar(c: char): char
  {
    if 'A' <= c <= 'Z' then (c as int - 'A' as int + 'a' as int) as char else c
  }

  /** `s.toLowerCase()` on the ASCII letters: same length, no capital letter left,
      a lower-case string unchanged, and whitespace exactly where it was. */
  function Lower(s: string): (r: string)
    ensures |r| == |s| && HasNoUpper(r)
    ensures forall i :: 0 <= i < |s| ==> r[i] == LowerChar(s[i])
    ensures HasNoUpper(s) ==> r == s
    ensures forall i :: 0 <= i < |s| ==> (IsWhitespace(r[i]) <==> IsWhitespace(s[i]))
    ensures forall i :: 0 <= i < |s| ==> (r[i] == ',' <==> s[i] == ',')
  {
    seq(|s|, i requires 0 <= i < |s| => LowerChar(s[i]))
  }

  /** The number of occurrences of `c` in `s`. */
  function Occurrences(s: string, c: char): nat
    decreases |s|
  {
    if |s| == 0 then 0 else (if s[0] == c then 1 else 0) + Occurrences(s[1..], c)
  }

  /** `s.split(sep)` for a one-character separator: one piece more than there are
      separators, none of them containing the separator; empty pieces are kept. */
  function Split(s: string, sep: char): (r: seq<string>)
    ensures |r| == Occurrences(s, sep) + 1
    ensures forall i :: 0 <= i < |r| ==> sep !in r[i]
    decreases |s|
  {
    if |s| == 0 then [""]
    else
      var rest := Split(s[1..], sep);
      if s[0] == sep then [""] + rest else [[s[0]] + rest[0]] + rest[1..]
  }

  /** `parts.join(sep)`. */
  function Join(parts: seq<string>, sep: string): string
    decreases |parts|
  {
    if |parts| == 0 then ""
    else if |parts| == 1 then parts[0]
    else parts[0] + sep + Join(parts[1..], sep)
  }

  lemma JoinPrependToFirst(x: string, y: string, t: seq<string>, sep: string)
    ensures Join([x + y] + t, sep) == x + Join([y] + t, sep)
  {
    if |t| > 0 {
      assert ([x + y] + t)[1..] == t;
      assert ([y] + t)[1..] == t;
    }
  }

  /** Joining the pieces with the separator gives back the split string. */
  lemma {:induction false} SplitThenJoin(s: string, sep: char)
    ensures Join(Split(s, sep), [sep]) == s
    decreases |s|
  {
    if |s| > 0 {
      var rest := Split(s[1..], sep);
      SplitThenJoin(s[1..], sep);
      if s[0] == sep {
        assert ([""] + rest)[1..] == rest;
      } else {
        assert rest == [rest[0]] + rest[1..];
        JoinPrependToFirst([s[0]], rest[0], rest[1..], [sep]);
      }
      assert s == [s[0]] + s[1..];
    }
  }

  lemma {:induction false} SplitAfterPiece(p: string, t: string, sep: char)
    requires sep !in p
    ensures Split(p + t, sep) == [p + Split(t, sep)[0]] + Split(t, sep)[1..]
    decreases |p|
  {
    if |p| > 0 {
      var u := Split(t, sep);
      assert (p + t)[0] == p[0] && p[0] != sep;
      assert (p + t)[1..] == p[1..] + t;
      SplitAfterPiece(p[1..], t, sep);
      assert [p[0]] + (p[1..] + u[0]) == p + u[0];
    } else {
      assert p + t == t;
      assert p + Split(t, sep)[0] == Split(t, sep)[0];
      assert Split(t, sep) == [Split(t, sep)[0]] + Split(t, sep)[1..];
    }
  }

  /** Splitting a join of separator-free pieces gives back the pieces. */
  lemma {:induction false} JoinThenSplit(parts: seq<string>, sep: char)
    requires |parts| >= 1
    requires forall i :: 0 <= i < |parts| ==> sep !in parts[i]
    ensures Split(Join(parts, [sep]), sep) == parts
    decreases |parts|
  {
    if |parts| == 1 {
      SplitAfterPiece(parts[0], "", sep);
      assert parts[0] + "" == parts[0];
    } else {
      var tail := Join(parts[1..], [sep]);
      JoinThenSplit(parts[1..], sep);
      assert Join(parts, [sep]) == parts[0] + ([sep] + tail);
      SplitAfterPiece(parts[0], [sep] + tail, sep);
      assert ([sep] + tail)[1..] == tail;
      assert Split([sep] + tail, sep) == [""] + parts[1..];
      assert parts[0] + "" == parts[0];
      assert parts == [parts[0]] + parts[1..];
    }
  }

  /** The skill-list normalisation of the registration, profile and job forms:
      `text.split(",").map((skill) => skill.trim().toLowerCase())`. Every entry is
      trimmed, lower-case and comma-free, and there is one entry per comma plus one. */
  function NormalizeSkills(text: string): (r: seq<string>)
    ensures |r| == Occurrences(text, ',') + 1
    ensures forall i :: 0 <= i < |r| ==> Trimmed(r[i]) && HasNoUpper(r[i]) && ',' !in r[i]
  {
    var pieces := Split(text, ',');
    seq(|pieces|, i requires 0 <= i < |pieces| => NormalizeSkill(pieces[i]))
  }

  /** Entry `i` of the normalisation is piece `i` of the text, normalised. */
  lemma NormalizeSkillsPieces(text: string)
    ensures forall i :: 0 <= i < |NormalizeSkills(text)| ==> NormalizeSkills(text)[i] == NormalizeSkill(Split(text, ',')[i])
  {
  }

  /** One piece of the normalisation: `skill.trim().toLowerCase()`. */
  function NormalizeSkill(x: string): (r: string)
    ensures Trimmed(r) && HasNoUpper(r)
    ensures ',' !in x ==> ',' !in r
    ensures Trimmed(x) && HasNoUpper(x) ==> r == x
  {
    var t := Trim(x);
    var r := Lower(t);
    assert |r| > 0 ==> IsWhitespace(r[0]) == IsWhitespace(t[0]) && IsWhitespace(r[|r| - 1]) == IsWhitespace(t[|t| - 1]);
    assert ',' !in t ==> forall i :: 0 <= i < |r| ==> r[i] != ',';
    r
  }

  /** The two strings have the same length and agree letter by letter once lower-cased. */
  predicate SameIgnoringCase(x: string, y: string)
  {
    |x| == |y| && forall j :: 0 <= j < |x| ==> LowerChar(x[j]) == LowerChar(y[j])
  }

  /** Two pieces that differ only in the case of their letters and in surrounding
      whitespace normalise to the same skill. */
  lemma CaseAndSpacingInsensitive(x: string, y: string)
    requires SameIgnoringCase(Trim(x), Trim(y))
    ensures NormalizeSkill(x) == NormalizeSkill(y)
  {
    var lx, ly := Lower(Trim(x)), Lower(Trim(y));
    assert forall j :: 0 <= j < |lx| ==> lx[j] == ly[j];
  }

  /** `" " + x` for every element. */
  function Padded(xs: seq<string>): (r: seq<string>)
  {
    seq(|xs|, i requires 0 <= i < |xs| => " " + xs[i])
  }

  lemma {:induction false} JoinWithSpace(xs: seq<string>)
    requires |xs| >= 1
    ensures Join(xs, ", ") == Join([xs[0]] + Padded(xs[1..]), ",")
    decreases |xs|
  {
    if |xs| > 1 {
      var rest := xs[1..];
      JoinWithSpace(rest);
      JoinPrependToFirst(" ", rest[0], Padded(rest[1..]), ",");
      assert [" " + rest[0]] + Padded(rest[1..]) == Padded(rest);
      assert ([xs[0]] + Padded(rest))[1..] == Padded(rest);
    }
  }

  /** Joining already-normalised skills with ", " and normalising the text again gives
      back the same skills, provided there is at least one. */
  lemma NormalizeJoinRoundTrip(skills: seq<string>)
    requires |skills| >= 1
    requires forall i :: 0 <= i < |skills| ==> Trimmed(skills[i]) && HasNoUpper(skills[i]) && ',' !in skills[i]
    ensures NormalizeSkills(Join(skills, ", ")) == skills
  {
    var text := Join(skills, ", ");
    SplitOfSpacedJoin(skills);
    NormalizeSpacedPieces(text, skills);
  }

  /** Joining normalised, comma-free skills with "," and normalising gives them back, empty
      ones included. */
  lemma NormalizeCommaJoin(skills: seq<string>)
    requires |skills| >= 1
    requires forall i :: 0 <= i < |skills| ==> Trimmed(skills[i]) && HasNoUpper(skills[i]) && ',' !in skills[i]
    ensures NormalizeSkills(Join(skills, ",")) == skills
  {
    var text := Join(skills, ",");
    assert "," == [','];
    JoinThenSplit(skills, ',');
    var r := NormalizeSkills(text);
    NormalizeSkillsPieces(text);
    assert |r| == |skills|;
    forall i | 0 <= i < |skills| ensures r[i] == skills[i] {
      assert Split(text, ',')[i] == skills[i];
    }
  }

  lemma NormalizeSpacedPieces(text: string, skills: seq<string>)
    requires |skills| >= 1
    requires forall i :: 0 <= i < |skills| ==> Trimmed(skills[i]) && HasNoUpper(skills[i])
    requires Split(text, ',') == [skills[0]] + Padded(skills[1..])
    ensures NormalizeSkills(text) == skills
  {
    var padded := Split(text, ',');
    var r := NormalizeSkills(text);
    assert |r| == |padded| == |skills|;
    NormalizeSkillsPieces(text);
    forall i | 0 <= i < |skills| ensures r[i] == skills[i] {
      SpacedPieceNormalizes(padded, skills, i);
    }
  }

  lemma SpacedPieceNormalizes(padded: seq<string>, skills: seq<string>, i: int)
    requires 0 <= i < |skills| && Trimmed(skills[i]) && HasNoUpper(skills[i])
    requires padded == [skills[0]] + Padded(skills[1..])
    ensures NormalizeSkill(padded[i]) == skills[i]
  {
    if i > 0 {
      assert padded[i] == Padded(skills[1..])[i - 1] == " " + skills[i];
      PaddedSkillNormalizes(skills[i]);
    }
  }

  lemma SplitOfSpacedJoin(skills: seq<string>)
    requires |skills| >= 1
    requires forall i :: 0 <= i < |skills| ==> ',' !in skills[i]
    ensures Split(Join(skills, ", "), ',') == [skills[0]] + Padded(skills[1..])
  {
    var padded := [skills[0]] + Padded(skills[1..]);
    forall i | 0 <= i < |padded| ensures ',' !in padded[i] {
      PaddedPieceCommaFree(skills, padded, i);
    }
    JoinWithSpace(skills);
    assert "," == [','];
    JoinThenSplit(padded, ',');
  }

  lemma PaddedPieceCommaFree(skills: seq<string>, padded: seq<string>, i: int)
    requires |skills| >= 1 && forall k :: 0 <= k < |skills| ==> ',' !in skills[k]
    requires padded == [skills[0]] + Padded(skills[1..]) && 0 <= i < |padded|
    ensures ',' !in padded[i]
  {
    if i > 0 {
      assert padded[i] == " " + skills[i];
    }
  }

  lemma PaddedSkillNormalizes(x: string)
    requires Trimmed(x) && HasNoUpper(x)
    ensures NormalizeSkill(" " + x) == x
  {
    TrimLeadingSpace(x);
  }

  /** Decimal digits of a natural number. */
  function NatToString(n: nat): string
    decreases n
  {
    var digit := ['0' + (n % 10) as char];
    if n < 10 then digit else NatToString(n / 10) + digit
  }

  /** Python's `str()` of an integer. */
  function IntToString(i: int): string
  {
    if i < 0 then "-" + NatToString(-i) else NatToString(i)
  }
}
