/**
 * Joining a list of names with a separator, as the blocked-delete message does,
 * and splitting such a list again. Splitting is the partner that shows the joined
 * text loses nothing as long as no name itself contains the separator.
 */
module Text {

  /** The separator the blocked-delete message puts between client names. */
  const NameSeparator: string := ", "

  /** The combined length of the parts. */
  function TotalLength(parts: seq<string>): nat {
    if parts == [] then 0 else |parts[0]| + TotalLength(parts[1..])
  }

  /**
   * The parts in order with `sep` between neighbours: the empty list joins to "",
   * the text starts with the first part, and nothing but the parts and one
   * separator per gap goes into it.
   */
  function Join(sep: string, parts: seq<string>): (r: string)
    ensures parts == [] ==> r == ""
    ensures parts != [] ==> parts[0] <= r
    ensures parts != [] ==> |r| == TotalLength(parts) + |sep| * (|parts| - 1)
  {
    if |parts| == 0 then ""
    else if |parts| == 1 then parts[0]
    else parts[0] + sep + Join(sep, parts[1..])
  }

  /** Whether ", " occurs anywhere in `s`. */
  predicate ContainsSeparator(s: string) {
    exists i :: 0 <= i < |s| - 1 && s[i] == ',' && s[i + 1] == ' '
  }

  /** The position of the first ", " in `s`, or -1 when there is none. */
  function FirstSeparator(s: string): (k: int)
    ensures k == -1 <==> !ContainsSeparator(s)
    ensures k != -1 ==> 0 <= k && k + 2 <= |s| && s[k] == ',' && s[k + 1] == ' '
    ensures k != -1 ==> !ContainsSeparator(s[..k + 1])
  {
    if |s| < 2 then -1
    else if s[0] == ',' && s[1] == ' ' then 0
    else
      var k := FirstSeparator(s[1..]);
      assert forall i :: 1 <= i < |s| - 1 ==> s[i] == s[1..][i - 1] && s[i + 1] == s[1..][i];
      if k == -1 then -1
      else k + 1
  }

  /** Cuts `s` at every ", ", scanning left to right; always at least one piece. */
  function Split(s: string): (r: seq<string>)
    ensures |r| >= 1
    decreases |s|
  {
    var k := FirstSeparator(s);
    if k == -1 then [s] else [s[..k]] + Split(s[k + 2..])
  }

  /** The first separator of `n + ", " + t` is the one just after `n` when `n` has none. */
  lemma {:induction false} FirstSeparatorAfterName(n: string, t: string)
    requires !ContainsSeparator(n)
    ensures FirstSeparator(n + NameSeparator + t) == |n|
  {
    var s := n + NameSeparator + t;
    if n == [] {
      assert s[0] == ',' && s[1] == ' ';
    } else {
      assert s[1..] == n[1..] + NameSeparator + t;
      assert !ContainsSeparator(n[1..]) by {
        forall i | 0 <= i < |n[1..]| - 1
          ensures !(n[1..][i] == ',' && n[1..][i + 1] == ' ')
        {
          assert n[1..][i] == n[i + 1] && n[1..][i + 1] == n[i + 2];
        }
      }
      FirstSeparatorAfterName(n[1..], t);
      assert !(s[0] == ',' && s[1] == ' ') by {
        if |n| == 1 {
          assert s[1] == ',';
        } else {
          assert s[0] == n[0] && s[1] == n[1];
        }
      }
    }
  }

  /** Splitting undoes joining with ", " when no name contains ", ". */
  lemma {:induction false} SplitJoin(parts: seq<string>)
    requires |parts| >= 1
    requires forall i :: 0 <= i < |parts| ==> !ContainsSeparator(parts[i])
    ensures Split(Join(NameSeparator, parts)) == parts
  {
    if |parts| == 1 {
      assert FirstSeparator(parts[0]) == -1;
    } else {
      var n, t := parts[0], Join(NameSeparator, parts[1..]);
      FirstSeparatorAfterName(n, t);
      var s := n + NameSeparator + t;
      assert s[..|n|] == n;
      assert s[|n| + 2..] == t;
      SplitJoin(parts[1..]);
      assert parts == [n] + parts[1..];
    }
  }
}
