// The destination folder of an export. A persisted recording goes to
// <root>/<label>_<name>/<date>_<label>_<operator>/, the label folder being
// created before the session folder; a transient one goes to <root>temp/,
// shared by every export and overwritten each time.
module ExportPath {

  predicate IsDigit(c: char)
  {
    '0' <= c <= '9'
  }

  predicate AllDigits(s: string)
  {
    forall i :: 0 <= i < |s| ==> IsDigit(s[i])
  }

  function DigitChar(d: nat): (c: char)
    requires d < 10
    ensures IsDigit(c)
  {
    ('0' as int + d) as char
  }

  /** Decimal digits of a natural number, most significant first, without leading zeros. */
  function NatToString(n: nat): (s: string)
    ensures |s| >= 1 && AllDigits(s)
    decreases n
  {
    if n < 10 then [DigitChar(n)] else NatToString(n / 10) + [DigitChar(n % 10)]
  }

  /** The value of a string of decimal digits. */
  function DigitsValue(s: string): nat
    requires AllDigits(s)
  {
    if s == [] then 0 else DigitsValue(s[..|s| - 1]) * 10 + (s[|s| - 1] as int - '0' as int)
  }

  /** Decimal text of an integer, with a leading minus sign when negative, as `to_string` writes it. */
  function IntToString(i: int): (s: string)
    ensures |s| >= 1 && '_' !in s && '/' !in s
  {
    if i < 0 then "-" + NatToString(-i) else NatToString(i)
  }

  predicate IsIntString(s: string)
  {
    if |s| > 0 && s[0] == '-' then AllDigits(s[1..]) else AllDigits(s)
  }

  function ParseInt(s: string): int
    requires IsIntString(s)
  {
    if |s| > 0 && s[0] == '-' then 0 - DigitsValue(s[1..]) as int else DigitsValue(s)
  }

  lemma {:induction false} NatToStringRoundTrip(n: nat)
    ensures DigitsValue(NatToString(n)) == n
    decreases n
  {
    var s := NatToString(n);
    if n >= 10 {
      NatToStringRoundTrip(n / 10);
      assert s[..|s| - 1] == NatToString(n / 10);
    }
  }

  /** Reading back the decimal text of an integer gives the integer. */
  lemma IntToStringRoundTrip(i: int)
    ensures IsIntString(IntToString(i)) && ParseInt(IntToString(i)) == i
  {
    if i < 0 {
      NatToStringRoundTrip(-i);
      assert IntToString(i)[1..] == NatToString(-i);
    } else {
      NatToStringRoundTrip(i);
    }
  }

  /** The label's folder under the data root. */
  function LabelFolder(root: string, labelId: int, labelName: string): (f: string)
    ensures root + "/" <= f
    ensures f[|root| + 1..] == IntToString(labelId) + "_" + labelName
  {
    root + "/" + IntToString(labelId) + "_" + labelName
  }

  /** The session's folder under its label folder. */
  function SessionFolder(root: string, labelId: int, labelName: string, date: string, worker: string): (f: string)
    ensures LabelFolder(root, labelId, labelName) + "/" <= f
    ensures f[|LabelFolder(root, labelId, labelName)| + 1..] == date + "_" + IntToString(labelId) + "_" + worker
  {
    LabelFolder(root, labelId, labelName) + "/" + date + "_" + IntToString(labelId) + "_" + worker
  }

  /** The folder the export's files are written into, with its trailing separator. */
  function ExportFolder(isSending: bool, root: string, labelId: int, labelName: string, date: string, worker: string): (out: string)
    ensures root <= out && |out| > |root| && out[|out| - 1] == '/'
    ensures isSending ==> out == root + "temp/"
    ensures !isSending ==> LabelFolder(root, labelId, labelName) + "/" <= out
  {
    if !isSending then SessionFolder(root, labelId, labelName, date, worker) + "/"
    else root + "temp" + "/"
  }

  /** The folders the export asks to be created, in the order it asks. */
  function CreatedFolders(isSending: bool, root: string, labelId: int, labelName: string, date: string, worker: string): (fs: seq<string>)
    ensures |fs| == if isSending then 1 else 2
    ensures forall i :: 0 <= i < |fs| ==> root <= fs[i] && |fs[i]| > |root|
  {
    if !isSending then [LabelFolder(root, labelId, labelName), SessionFolder(root, labelId, labelName, date, worker)]
    else [root + "temp"]
  }

  /** Every folder is created before anything inside it, and the export folder lies inside each of them. */
  lemma FoldersCreatedOutsideIn(isSending: bool, root: string, labelId: int, labelName: string, date: string, worker: string)
    ensures var fs := CreatedFolders(isSending, root, labelId, labelName, date, worker);
      var out := ExportFolder(isSending, root, labelId, labelName, date, worker);
      |fs| >= 1 &&
      (forall i :: 0 <= i < |fs| ==> fs[i] + "/" <= out) &&
      (forall i, j :: 0 <= i < j < |fs| ==> fs[i] + "/" <= fs[j]) &&
      out == fs[|fs| - 1] + "/"
  {
    if !isSending {
      var l := LabelFolder(root, labelId, labelName);
      var s := SessionFolder(root, labelId, labelName, date, worker);
      assert s == l + "/" + (date + "_" + IntToString(labelId) + "_" + worker);
      assert l + "/" <= s;
      assert l + "/" <= s + "/";
    }
  }

  /** Every transient export goes to the same folder, whatever the label, date and operator. */
  lemma TransientFolderIsShared(root: string, l1: int, n1: string, d1: string, w1: string,
                                l2: int, n2: string, d2: string, w2: string)
    ensures ExportFolder(true, root, l1, n1, d1, w1) == ExportFolder(true, root, l2, n2, d2, w2)
  {
  }

  /** Splitting at the first underscore: a prefix without underscores is recovered uniquely. */
  lemma SplitAtUnderscore(a: string, b: string, c: string, d: string)
    requires '_' !in a && '_' !in c
    requires a + "_" + b == c + "_" + d
    ensures a == c && b == d
  {
    var s := a + "_" + b;
    assert forall k :: 0 <= k < |c| ==> s[k] == c[k] && c[k] != '_';
    assert forall k :: 0 <= k < |a| ==> s[k] == a[k] && a[k] != '_';
    assert s[|a|] == '_' && s[|c|] == '_';
    assert |a| == |c|;
    assert a == s[..|a|] && c == s[..|c|];
    assert b == s[|a| + 1..] && d == s[|c| + 1..];
  }

  /** A persisted export folder is the root, a separator, the label's decimal text, an underscore and the rest. */
  lemma PersistedFolderShape(root: string, labelId: int, labelName: string, date: string, worker: string)
    ensures ExportFolder(false, root, labelId, labelName, date, worker) ==
      (root + "/") + (IntToString(labelId) + "_" + (labelName + "/" + date + "_" + IntToString(labelId) + "_" + worker + "/"))
  {
    var id := IntToString(labelId);
    var tail := labelName + "/" + date + "_" + id + "_" + worker + "/";
    calc {
      ExportFolder(false, root, labelId, labelName, date, worker);
      LabelFolder(root, labelId, labelName) + "/" + date + "_" + id + "_" + worker + "/";
      { assert LabelFolder(root, labelId, labelName) == (root + "/") + (id + "_" + labelName); }
      (root + "/") + (id + "_" + labelName) + "/" + date + "_" + id + "_" + worker + "/";
      (root + "/") + (id + "_" + tail);
    }
  }

  /** Two persisted exports under the same root land in the same folder only if they carry the same label. */
  lemma PersistedFolderDeterminesLabel(root: string, l1: int, n1: string, d1: string, w1: string,
                                       l2: int, n2: string, d2: string, w2: string)
    requires ExportFolder(false, root, l1, n1, d1, w1) == ExportFolder(false, root, l2, n2, d2, w2)
    ensures l1 == l2
  {
    var p := root + "/";
    var s1, s2 := IntToString(l1), IntToString(l2);
    var t1 := n1 + "/" + d1 + "_" + s1 + "_" + w1 + "/";
    var t2 := n2 + "/" + d2 + "_" + s2 + "_" + w2 + "/";
    PersistedFolderShape(root, l1, n1, d1, w1);
    PersistedFolderShape(root, l2, n2, d2, w2);
    assert p + (s1 + "_" + t1) == p + (s2 + "_" + t2);
    assert s1 + "_" + t1 == s2 + "_" + t2 by {
      assert s1 + "_" + t1 == (p + (s1 + "_" + t1))[|p|..];
      assert s2 + "_" + t2 == (p + (s2 + "_" + t2))[|p|..];
    }
    SplitAtUnderscore(s1, t1, s2, t2);
    IntToStringRoundTrip(l1);
    IntToStringRoundTrip(l2);
  }
}
