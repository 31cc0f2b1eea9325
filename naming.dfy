/**
 * The two string derivations of the base field builder: `generateName`,
 * which turns a label into a storage name, and `generateUniquePrefix`,
 * which hashes the prefix and the normalised label for an automatic key.
 */
module Naming {
  import opened Php

  /** A byte a generated name may contain: `[a-z0-9_]`. */
  predicate IsNameByte(c: Byte) {
    'a' <= c <= 'z' || '0' <= c <= '9' || c == '_'
  }

  predicate NoDoubleUnderscore(r: Bytes) {
    forall i :: 0 < i < |r| ==> !(r[i - 1] == '_' && r[i] == '_')
  }

  /**
   * `preg_replace('/[^A-Za-z0-9]+/', '_', $s)` without the `u` flag: every
   * maximal run of bytes outside `[A-Za-z0-9]` becomes one `_`. `inRun`
   * says that the byte before `s` already belonged to such a run, so the
   * run continues into `s` and its `_` has already been written.
   */
  function CollapseRuns(s: Bytes, inRun: bool): (r: Bytes)
    ensures forall i :: 0 <= i < |r| ==> IsAlnum(r[i]) || r[i] == '_'
    ensures NoDoubleUnderscore(r)
    ensures inRun && r != [] ==> r[0] != '_'
    ensures !inRun ==> (r == [] <==> s == [])
    ensures |r| <= |s|
    decreases |s|
  {
    if s == [] then []
    else if IsAlnum(s[0]) then [s[0]] + CollapseRuns(s[1..], false)
    else if inRun then CollapseRuns(s[1..], true)
    else "_" + CollapseRuns(s[1..], true)
  }

  /** `generateName($label)`: collapse the separator runs, then lower-case. */
  function GenerateName(labelText: Bytes): (r: Bytes)
    ensures forall i :: 0 <= i < |r| ==> IsNameByte(r[i])
    ensures NoDoubleUnderscore(r)
    ensures r == [] <==> labelText == []
    ensures |r| <= |labelText|
  {
    StrToLower(CollapseRuns(labelText, false))
  }

  /** The alphanumeric bytes of `s`, in order. */
  function Alnums(s: Bytes): Bytes
    decreases |s|
  {
    if s == [] then []
    else (if IsAlnum(s[0]) then [s[0]] else []) + Alnums(s[1..])
  }

  lemma {:induction false} CollapseRunsKeepsAlnums(s: Bytes, inRun: bool)
    ensures Alnums(CollapseRuns(s, inRun)) == Alnums(s)
    decreases |s|
  {
    if s != [] {
      CollapseRunsKeepsAlnums(s[1..], !IsAlnum(s[0]));
      var rest := CollapseRuns(s[1..], !IsAlnum(s[0]));
      if IsAlnum(s[0]) {
        assert ([s[0]] + rest)[1..] == rest;
      } else if !inRun {
        assert ("_" + rest)[1..] == rest;
      }
    }
  }

  lemma {:induction false} AlnumsCommuteWithLower(s: Bytes)
    ensures Alnums(StrToLower(s)) == StrToLower(Alnums(s))
    decreases |s|
  {
    if s != [] {
      AlnumsCommuteWithLower(s[1..]);
      assert StrToLower(s)[1..] == StrToLower(s[1..]);
      StrToLowerAppend(if IsAlnum(s[0]) then [s[0]] else [], Alnums(s[1..]));
    }
  }

  /** The name keeps the label's letters and digits, in order, lower-cased. */
  lemma GenerateNameKeepsAlnums(labelText: Bytes)
    ensures Alnums(GenerateName(labelText)) == StrToLower(Alnums(labelText))
  {
    AlnumsCommuteWithLower(CollapseRuns(labelText, false));
    CollapseRunsKeepsAlnums(labelText, false);
  }

  /** A string already shaped like a collapsed name is left as it is. */
  lemma {:induction false} CollapseRunsFixesNames(r: Bytes, inRun: bool)
    requires forall i :: 0 <= i < |r| ==> IsAlnum(r[i]) || r[i] == '_'
    requires NoDoubleUnderscore(r)
    requires inRun && r != [] ==> r[0] != '_'
    ensures CollapseRuns(r, inRun) == r
    decreases |r|
  {
    if r != [] {
      assert NoDoubleUnderscore(r[1..]) by {
        forall i | 0 < i < |r[1..]| ensures !(r[1..][i - 1] == '_' && r[1..][i] == '_') {
          assert r[1..][i - 1] == r[i] && r[1..][i] == r[i + 1];
        }
      }
      if |r| > 1 {
        assert !(r[0] == '_' && r[1] == '_');
      }
      CollapseRunsFixesNames(r[1..], !IsAlnum(r[0]));
      assert r == [r[0]] + r[1..];
    }
  }

  /** Applying `generateName` to a generated name gives it back unchanged. */
  lemma GenerateNameIdempotent(labelText: Bytes)
    ensures GenerateName(GenerateName(labelText)) == GenerateName(labelText)
  {
    var g := GenerateName(labelText);
    CollapseRunsFixesNames(g, false);
    StrToLowerFixesLower(g);
  }

  /** The empty label gives the empty name; the label "0" gives the PHP-empty name "0". */
  lemma GeneratedNameMayBeEmpty()
    ensures GenerateName("") == ""
    ensures GenerateName("0") == "0" && IsEmptyString(GenerateName("0"))
  {
  }

  /**
   * A second, position-by-position reading of `generateName`: byte `i` of
   * the label contributes itself lower-cased when it is a letter or digit,
   * a `_` when it opens a run of other bytes, and nothing when it continues
   * such a run.
   */
  function Contribution(s: Bytes, i: nat): Bytes
    requires i < |s|
  {
    if IsAlnum(s[i]) then [ToLower(s[i])]
    else if i > 0 && !IsAlnum(s[i - 1]) then []
    else "_"
  }

  function NameByPosition(s: Bytes): Bytes
    decreases |s|
  {
    if s == [] then [] else NameByPosition(s[..|s| - 1]) + Contribution(s, |s| - 1)
  }

  lemma {:induction false} CollapseRunsSnoc(s: Bytes, c: Byte, inRun: bool)
    ensures CollapseRuns(s + [c], inRun) ==
      CollapseRuns(s, inRun) +
      (if IsAlnum(c) then [c]
       else if (if s == [] then inRun else !IsAlnum(s[|s| - 1])) then []
       else "_")
    decreases |s|
  {
    if s != [] {
      assert (s + [c])[0] == s[0];
      assert (s + [c])[1..] == s[1..] + [c];
      CollapseRunsSnoc(s[1..], c, !IsAlnum(s[0]));
    }
  }

  /** `generateName` agrees with the position-by-position reading on every label. */
  lemma {:induction false} GenerateNameByPosition(s: Bytes)
    ensures GenerateName(s) == NameByPosition(s)
    decreases |s|
  {
    if s != [] {
      var p, c := s[..|s| - 1], s[|s| - 1];
      assert s == p + [c];
      GenerateNameByPosition(p);
      CollapseRunsSnoc(p, c, false);
      var tail := if IsAlnum(c) then [c]
                  else if (if p == [] then false else !IsAlnum(p[|p| - 1])) then []
                  else "_";
      StrToLowerAppend(CollapseRuns(p, false), tail);
      assert StrToLower(tail) == Contribution(s, |s| - 1);
    }
  }

  /** The bytes `generateUniquePrefix` hands to the hash. */
  function HashInput(prefix: Bytes, labelText: Bytes): (r: Bytes)
    ensures |r| == |prefix| + |labelText| && r[..|prefix|] == prefix
    ensures forall i :: |prefix| <= i < |r| ==> r[i] != ' ' && !IsUpper(r[i])
  {
    prefix + StrToLower(StrReplace(' ', '_', labelText))
  }

  /** How `generateUniquePrefix` sees one label byte. */
  function Fold(c: Byte): Byte {
    ToLower(if c == ' ' then '_' else c)
  }

  /**
   * `generateUniquePrefix($prefix, $label)`. `md5` stands for PHP's `md5`;
   * it is any deterministic function of the bytes.
   */
  function UniquePrefix(md5: Bytes -> Bytes, prefix: Bytes, labelText: Bytes): (r: Bytes)
    ensures r == md5(prefix + seq(|labelText|, i requires 0 <= i < |labelText| => Fold(labelText[i])))
  {
    var folded := seq(|labelText|, i requires 0 <= i < |labelText| => Fold(labelText[i]));
    assert HashInput(prefix, labelText) == prefix + folded;
    md5(HashInput(prefix, labelText))
  }

  /**
   * Two labels reach the hash as the same bytes exactly when they agree
   * up to ASCII case and space versus underscore.
   */
  lemma HashInputFoldsLabel(prefix: Bytes, l1: Bytes, l2: Bytes)
    requires |l1| == |l2|
    ensures HashInput(prefix, l1) == HashInput(prefix, l2) <==>
            forall i :: 0 <= i < |l1| ==> Fold(l1[i]) == Fold(l2[i])
  {
    var h1, h2 := HashInput(prefix, l1), HashInput(prefix, l2);
    if h1 == h2 {
      forall i | 0 <= i < |l1| ensures Fold(l1[i]) == Fold(l2[i]) {
        assert h1[|prefix| + i] == h2[|prefix| + i];
      }
    }
  }

  /** So labels such as "My Field" and "my_field" get the same automatic prefix. */
  lemma UniquePrefixIgnoresCaseAndSpaces(md5: Bytes -> Bytes, prefix: Bytes, l1: Bytes, l2: Bytes)
    requires |l1| == |l2|
    requires forall i :: 0 <= i < |l1| ==> Fold(l1[i]) == Fold(l2[i])
    ensures UniquePrefix(md5, prefix, l1) == UniquePrefix(md5, prefix, l2)
  {
    HashInputFoldsLabel(prefix, l1, l2);
  }

  /**
   * The prefix and the label are joined without a separator, so two
   * different prefix/label pairs get the same automatic prefix whatever
   * the hash.
   */
  lemma UniquePrefixJoinsWithoutSeparator(md5: Bytes -> Bytes)
    ensures UniquePrefix(md5, "ab", "c") == UniquePrefix(md5, "a", "bc")
  {
    assert HashInput("ab", "c") == HashInput("a", "bc");
  }

  /** Likewise "My Field" and "my_field" under one prefix, whatever the hash. */
  lemma UniquePrefixFoldsLabels(md5: Bytes -> Bytes, prefix: Bytes)
    ensures UniquePrefix(md5, prefix, "My Field") == UniquePrefix(md5, prefix, "my_field")
  {
    UniquePrefixIgnoresCaseAndSpaces(md5, prefix, "My Field", "my_field");
  }

  /** Steps of `CollapseRunsExample`, one suffix of "My Field!" at a time. */
  lemma CollapseRunsExampleTail()
    ensures CollapseRuns("ld!", false) == "ld_"
  {
    assert CollapseRuns("!", false) == "_";
    assert CollapseRuns("d!", false) == "d_";
  }

  lemma CollapseRunsExampleWord()
    ensures CollapseRuns("ield!", false) == "ield_"
  {
    var a: Bytes := "eld!";
    CollapseRunsExampleTail();
    assert CollapseRuns(a, false) == "eld_";
  }

  lemma CollapseRunsExampleSpace()
    ensures CollapseRuns(" Field!", false) == "_Field_"
  {
    var a: Bytes := "Field!";
    CollapseRunsExampleWord();
    assert CollapseRuns(a, true) == "Field_";
  }

  lemma CollapseRunsExample()
    ensures CollapseRuns("My Field!", false) == "My_Field_"
  {
    var a: Bytes := "y Field!";
    CollapseRunsExampleSpace();
    assert CollapseRuns(a, false) == "y_Field_";
  }

  /** `generateName("My Field!")` is "my_field_": the trailing run becomes one `_`. */
  lemma GenerateNameExample()
    ensures GenerateName("My Field!") == "my_field_"
  {
    CollapseRunsExample();
    var c: Bytes := "My_Field_";
    var d: Bytes := "my_field_";
    assert StrToLower(c) == d by {
      forall i | 0 <= i < 9 ensures StrToLower(c)[i] == d[i] {
        assert ToLower(c[i]) == d[i];
      }
    }
  }
}
