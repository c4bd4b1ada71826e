/** Recognising a surface's spot shift from its file name (`FILE_SHIFT_MAP` and
    `detect_shift_from_filename`). */
module ShiftNaming {
  import opened Wrappers

  /** The naming convention, in the order in which keys are tried. */
  const FileShiftMap: seq<(string, real)> := [
    ("down_75", -0.075),
    ("down_50", -0.05),
    ("down_25", -0.025),
    ("atm", 0.0),
    ("up_25", 0.025),
    ("up_50", 0.05),
    ("up_75", 0.075)
  ]

  /** Python's `key in name` on strings: `key` occurs as a contiguous substring. */
  predicate Contains(name: string, key: string)
  {
    exists i :: 0 <= i <= |name| - |key| && OccursAt(name, key, i)
  }

  predicate OccursAt(name: string, key: string, i: nat)
  {
    i + |key| <= |name| && name[i..i + |key|] == key
  }

  /** The final path component: everything after the last '/', once trailing
      slashes are dropped (`PurePosixPath.name`). */
  function FinalComponent(path: string): (r: string)
    ensures '/' !in r
    ensures |r| <= |path|
    ensures r == "" <==> forall i :: 0 <= i < |path| ==> path[i] == '/'
  {
    if |path| == 0 then ""
    else if path[|path| - 1] == '/' then
      if forall i :: 0 <= i < |path| ==> path[i] == '/' then ""
      else FinalComponent(path[..|path| - 1])
    else AfterLastSlash(path)
  }

  function AfterLastSlash(path: string): (r: string)
    ensures '/' !in r
    ensures |r| <= |path| && r == path[|path| - |r|..]
    ensures |r| < |path| ==> path[|path| - |r| - 1] == '/'
  {
    if |path| == 0 || path[|path| - 1] == '/' then ""
    else AfterLastSlash(path[..|path| - 1]) + [path[|path| - 1]]
  }

  /** Index of the last '.' in `s`, or -1 (`str.rfind('.')`). */
  function LastDot(s: string): (i: int)
    ensures -1 <= i < |s|
    ensures 0 <= i ==> s[i] == '.'
    ensures forall k :: i < k < |s| ==> s[k] != '.'
  {
    if |s| == 0 then -1
    else if s[|s| - 1] == '.' then |s| - 1
    else LastDot(s[..|s| - 1])
  }

  /** `PurePath.stem`: the name without its final suffix; a leading dot or a
      trailing dot does not start a suffix. */
  function Stem(name: string): (r: string)
    ensures r <= name
    ensures |r| < |name| ==> 0 < |r| < |name| - 1 && name[|r|] == '.'
    ensures |r| < |name| ==> forall k :: |r| < k < |name| ==> name[k] != '.'
    ensures |r| == |name| ==> forall k :: 0 < k < |name| - 1 && name[k] == '.' ==> name[|name| - 1] == '.'
  {
    var i := LastDot(name);
    if 0 < i < |name| - 1 then name[..i] else name
  }

  /** `str.lower()` on the ASCII letters. */
  function LowerChar(c: char): (r: char)
    ensures 'A' <= c <= 'Z' ==> 'a' <= r <= 'z' && r as int - 'a' as int == c as int - 'A' as int
    ensures !('A' <= c <= 'Z') ==> r == c
  {
    if 'A' <= c <= 'Z' then (c as int + 32) as char else c
  }

  function Lower(s: string): (r: string)
    ensures |r| == |s|
    ensures forall i :: 0 <= i < |s| ==> r[i] == LowerChar(s[i])
  {
    seq(|s|, i requires 0 <= i < |s| => LowerChar(s[i]))
  }

  /** The first-match scan: the shift of the first entry whose key occurs in `name`. */
  function FirstShift(table: seq<(string, real)>, name: string): (r: Option<real>)
    ensures r.None? <==> forall k :: 0 <= k < |table| ==> !Contains(name, table[k].0)
    ensures r.Some? ==>
      exists k :: 0 <= k < |table| && r.value == table[k].1 && Contains(name, table[k].0)
        && forall l :: 0 <= l < k ==> !Contains(name, table[l].0)
    decreases |table|, 1
  {
    if |table| == 0 then None
    else if Contains(name, table[0].0) then Some(table[0].1)
    else
      FirstShiftTail(table, name);
      FirstShift(table[1..], name)
  }

  /** Moving from the tail of the table to the whole table shifts every index by one. */
  lemma FirstShiftTail(table: seq<(string, real)>, name: string)
    requires |table| > 0 && !Contains(name, table[0].0)
    ensures var r := FirstShift(table[1..], name);
      && (r.None? <==> forall k :: 0 <= k < |table| ==> !Contains(name, table[k].0))
      && (r.Some? ==>
        exists k :: 0 <= k < |table| && r.value == table[k].1 && Contains(name, table[k].0)
          && forall l :: 0 <= l < k ==> !Contains(name, table[l].0))
    decreases |table|, 0
  {
    var r := FirstShift(table[1..], name);
    forall k | 0 < k < |table| ensures table[k] == table[1..][k - 1] { }
    if r.Some? {
      var k :| 0 <= k < |table[1..]| && r.value == table[1..][k].1 && Contains(name, table[1..][k].0)
        && forall l :: 0 <= l < k ==> !Contains(name, table[1..][l].0);
      assert forall l :: 0 <= l < k + 1 ==> !Contains(name, table[l].0) by {
        forall l | 0 <= l < k + 1 ensures !Contains(name, table[l].0) {
          if l > 0 { assert table[l] == table[1..][l - 1]; }
        }
      }
      assert table[k + 1] == table[1..][k];
    }
  }

  /** `detect_shift_from_filename`. */
  function DetectShiftFromFilename(filename: string): (r: Option<real>)
    ensures r.Some? ==> r.value in {-0.075, -0.05, -0.025, 0.0, 0.025, 0.05, 0.075}
  {
    var name := Lower(Stem(FinalComponent(filename)));
    TableShifts(name);
    FirstShift(FileShiftMap, name)
  }

  /** The shift found is that of the first key, in table order, that occurs in the
      lower-cased stem. */
  lemma DetectShiftFirstMatch(filename: string, k: nat)
    requires k < |FileShiftMap|
    requires Contains(Lower(Stem(FinalComponent(filename))), FileShiftMap[k].0)
    requires forall l :: 0 <= l < k ==> !Contains(Lower(Stem(FinalComponent(filename))), FileShiftMap[l].0)
    ensures DetectShiftFromFilename(filename) == Some(FileShiftMap[k].1)
  {
    var name := Lower(Stem(FinalComponent(filename)));
    var r := FirstShift(FileShiftMap, name);
    var k' :| 0 <= k' < |FileShiftMap| && r.value == FileShiftMap[k'].1 && Contains(name, FileShiftMap[k'].0)
      && forall l :: 0 <= l < k' ==> !Contains(name, FileShiftMap[l].0);
    if k' < k {
    } else if k < k' {
    }
  }

  /** No key in the stem means no shift; any result is one of the seven table shifts. */
  lemma DetectShiftNone(filename: string)
    ensures DetectShiftFromFilename(filename).None? <==>
      forall k :: 0 <= k < |FileShiftMap| ==> !Contains(Lower(Stem(FinalComponent(filename))), FileShiftMap[k].0)
    ensures DetectShiftFromFilename(filename).Some? ==>
      DetectShiftFromFilename(filename).value in {-0.075, -0.05, -0.025, 0.0, 0.025, 0.05, 0.075}
  {
    TableShifts(Lower(Stem(FinalComponent(filename))));
  }

  /** The scan can only return one of the seven shifts of the table. */
  lemma TableShifts(name: string)
    ensures FirstShift(FileShiftMap, name).Some? ==>
      FirstShift(FileShiftMap, name).value in {-0.075, -0.05, -0.025, 0.0, 0.025, 0.05, 0.075}
  {
    var r := FirstShift(FileShiftMap, name);
    if r.Some? {
      var k :| 0 <= k < |FileShiftMap| && r.value == FileShiftMap[k].1;
      ShiftValue(k);
    }
  }

  lemma ShiftValue(k: nat)
    requires k < |FileShiftMap|
    ensures FileShiftMap[k].1 in {-0.075, -0.05, -0.025, 0.0, 0.025, 0.05, 0.075}
  {
  }

  /** A key whose first character never appears in the name does not occur in it. */
  lemma AbsentFirstChar(name: string, key: string)
    requires |key| > 0 && key[0] !in name
    ensures !Contains(name, key)
  {
    forall i | 0 <= i <= |name| - |key| ensures !OccursAt(name, key, i) {
      assert name[i..i + |key|][0] == name[i];
    }
  }

  /** Upper case and a directory do not hide the key. */
  lemma DetectShiftExampleUpperCase()
    ensures DetectShiftFromFilename("data/SPX_UP_25.csv") == Some(0.025)
  {
    UpperCaseName();
    UpperCaseKeys();
    DetectShiftFirstMatch("data/SPX_UP_25.csv", 4);
  }

  /** In "spx_up_25" the first key of the table that occurs is "up_25". */
  lemma UpperCaseKeys()
    ensures Contains("spx_up_25", FileShiftMap[4].0)
    ensures forall l :: 0 <= l < 4 ==> !Contains("spx_up_25", FileShiftMap[l].0)
  {
    var name := "spx_up_25";
    assert OccursAt(name, "up_25", 4);
    forall l | 0 <= l < 4 ensures !Contains(name, FileShiftMap[l].0) {
      AbsentFirstChar(name, FileShiftMap[l].0);
    }
  }

  lemma UpperCaseName()
    ensures Lower(Stem(FinalComponent("data/SPX_UP_25.csv"))) == "spx_up_25"
  {
    UpperCaseFile();
    UpperCaseStem();
    UpperCaseLower();
  }

  lemma UpperCaseLower()
    ensures Lower("SPX_UP_25") == "spx_up_25"
  {
    var s := Lower("SPX_UP_25");
    assert s == "spx_up_25";
  }

  lemma UpperCaseFile()
    ensures FinalComponent("data/SPX_UP_25.csv") == "SPX_UP_25.csv"
  {
    var path := "data/SPX_UP_25.csv";
    SlashFreeSuffix(path, 5);
    assert path[5..] == "SPX_UP_25.csv";
  }

  lemma UpperCaseStem()
    ensures Stem("SPX_UP_25.csv") == "SPX_UP_25"
  {
    var file := "SPX_UP_25.csv";
    DotAt(file, 9);
    assert file[..9] == "SPX_UP_25";
  }

  /** A key in the directory part is not seen. */
  lemma DetectShiftExampleDirectory()
    ensures DetectShiftFromFilename("down_50/SPX.csv").None?
  {
    var path := "down_50/SPX.csv";
    SlashFreeSuffix(path, 8);
    assert path[8..] == "SPX.csv";
    DotAt("SPX.csv", 3);
    assert "SPX.csv"[..3] == "SPX";
    NoKeyInSpx();
  }

  /** A key in the suffix is not seen. */
  lemma DetectShiftExampleSuffix()
    ensures DetectShiftFromFilename("SPX.atm").None?
  {
    var file := "SPX.atm";
    SlashFreeSuffix(file, 0);
    assert file[0..] == file;
    DotAt(file, 3);
    assert file[..3] == "SPX";
    NoKeyInSpx();
  }

  lemma NoKeyInSpx()
    ensures forall l :: 0 <= l < |FileShiftMap| ==> !Contains(Lower("SPX"), FileShiftMap[l].0)
  {
    var name := Lower("SPX");
    assert name == "spx";
    forall l | 0 <= l < |FileShiftMap| ensures !Contains(name, FileShiftMap[l].0) {
      AbsentFirstChar(name, FileShiftMap[l].0);
    }
  }

  /** `PurePosixPath(pre + name + post).name` is `name` when `name` is a
      non-empty run without '/', `pre` is empty or ends in '/', and `post` is
      only trailing slashes. */
  lemma {:induction false} FinalComponentOf(pre: string, name: string, post: string)
    requires |name| > 0 && '/' !in name
    requires |pre| == 0 || pre[|pre| - 1] == '/'
    requires forall k :: 0 <= k < |post| ==> post[k] == '/'
    ensures FinalComponent(pre + name + post) == name
    decreases |post|
  {
    var path := pre + name + post;
    if |post| == 0 {
      assert path == pre + name;
      AfterLastSlashOf(pre, name);
    } else {
      var p := post[..|post| - 1];
      assert path[|pre|] == name[0] && name[0] != '/';
      assert path[..|path| - 1] == pre + name + p;
      FinalComponentOf(pre, name, p);
    }
  }

  /** The part after the last '/' of `pre + name`, where `name` holds no '/'. */
  lemma {:induction false} AfterLastSlashOf(pre: string, name: string)
    requires |name| > 0 && '/' !in name
    requires |pre| == 0 || pre[|pre| - 1] == '/'
    ensures AfterLastSlash(pre + name) == name
    decreases |name|
  {
    var n := |name| - 1;
    AfterLastSlashStep(pre, name);
    if n == 0 {
      assert pre + name[..n] == pre;
    } else {
      NoSlashPrefix(name, n);
      AfterLastSlashOf(pre, name[..n]);
    }
    assert name == name[..n] + [name[n]];
  }

  lemma NoSlashPrefix(name: string, n: nat)
    requires n <= |name| && '/' !in name
    ensures '/' !in name[..n]
  {
    forall k | 0 <= k < n ensures name[..n][k] != '/' { assert name[k] in name; }
  }

  /** Peeling the last character off `pre + name`. */
  lemma AfterLastSlashStep(pre: string, name: string)
    requires |name| > 0 && '/' !in name
    requires |pre| == 0 || pre[|pre| - 1] == '/'
    ensures AfterLastSlash(pre + name) == AfterLastSlash(pre + name[..|name| - 1]) + [name[|name| - 1]]
    ensures |name| == 1 ==> AfterLastSlash(pre + name[..|name| - 1]) == []
  {
    var path := pre + name;
    var n := |name| - 1;
    assert path[|path| - 1] == name[n];
    assert path[..|path| - 1] == pre + name[..n];
  }

  /** The final component of a path whose last '/' sits just before `start`. */
  lemma SlashFreeSuffix(path: string, start: nat)
    requires start < |path|
    requires start > 0 ==> path[start - 1] == '/'
    requires forall k :: start <= k < |path| ==> path[k] != '/'
    ensures FinalComponent(path) == path[start..]
  {
    assert path[|path| - 1] != '/';
  }

  /** The stem of a name whose only dot is at `i`, strictly inside it. */
  lemma DotAt(name: string, i: nat)
    requires 0 < i < |name| - 1 && name[i] == '.'
    requires forall k :: 0 <= k < |name| && k != i ==> name[k] != '.'
    ensures Stem(name) == name[..i]
  {
  }
}
