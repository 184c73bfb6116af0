// The placeholder list of an IN clause.
module SqlText {

  // "?, ?, ..., ?"
  function Marks(n: nat): string {
    if n == 0 then "" else if n == 1 then "?" else Marks(n - 1) + ", ?"
  }

  function CountMarks(s: string): nat {
    if s == "" then 0 else CountMarks(s[..|s| - 1]) + (if s[|s| - 1] == '?' then 1 else 0)
  }

  function JoinWith(parts: seq<string>, separator: string): string {
    if parts == [] then ""
    else if |parts| == 1 then parts[0]
    else JoinWith(parts[..|parts| - 1], separator) + separator + parts[|parts| - 1]
  }

  lemma CountMarksAppend(s: string, t: string)
    ensures CountMarks(s + t) == CountMarks(s) + CountMarks(t)
  {
    if t == "" {
      assert s + t == s;
    } else {
      CountMarksAppend(s, t[..|t| - 1]);
      assert (s + t)[..|s + t| - 1] == s + t[..|t| - 1];
    }
  }

  lemma {:induction false} MarksAreCounted(n: nat)
    ensures CountMarks(Marks(n)) == n
  {
    if n > 1 {
      MarksAreCounted(n - 1);
      CountMarksAppend(Marks(n - 1), ", ?");
      assert ", ?"[..2] == ", " && ", "[..1] == "," && ","[..0] == "";
      assert CountMarks(",") == 0 && CountMarks(", ") == 0 && CountMarks(", ?") == 1;
    } else if n == 1 {
      assert "?"[..0] == "";
    }
  }

  lemma {:induction false} JoinedMarks(n: nat)
    ensures JoinWith(seq(n, _ => "?"), ", ") == Marks(n)
  {
    if n > 1 {
      JoinedMarks(n - 1);
      assert seq(n, _ => "?")[..n - 1] == seq(n - 1, _ => "?");
    }
  }

  // The characters of a non-empty list in parentheses.
  ghost predicate IsMarkList(text: string, n: nat) {
    && |text| == 3 * n && n > 0
    && text[0] == '(' && text[|text| - 1] == ')'
    && (forall i | 0 <= i < n :: text[3 * i + 1] == '?')
    && (forall i | 0 <= i < n - 1 :: text[3 * i + 2] == ',' && text[3 * i + 3] == ' ')
  }

  lemma {:induction false} MarksSpelled(n: nat)
    requires n > 0
    ensures IsMarkList("(" + Marks(n) + ")", n)
  {
    if n > 1 {
      MarksSpelled(n - 1);
      var shorter, text := "(" + Marks(n - 1) + ")", "(" + Marks(n) + ")";
      assert text == shorter[..|shorter| - 1] + ", ?)";
    }
  }

  // One placeholder and one argument per id, in order.
  method InClause(ids: seq<string>) returns (text: string, args: seq<string>)
    ensures args == ids
    ensures text == "(" + Marks(|ids|) + ")" && CountMarks(text) == |args|
    ensures ids != [] ==> IsMarkList(text, |ids|)
  {
    var placeholders := new string[|ids|];
    var bound := new string[|ids|];
    for i := 0 to |ids|
      invariant forall k | 0 <= k < i :: placeholders[k] == "?" && bound[k] == ids[k]
    {
      placeholders[i] := "?";
      bound[i] := ids[i];
    }
    args := bound[..];
    assert placeholders[..] == seq(|ids|, _ => "?");
    text := "(" + JoinWith(placeholders[..], ", ") + ")";
    JoinedMarks(|ids|);
    if ids != [] {
      MarksSpelled(|ids|);
    }
    MarksAreCounted(|ids|);
    CountMarksAppend("(" + Marks(|ids|), ")");
    CountMarksAppend("(", Marks(|ids|));
    assert "("[..0] == "" && ")"[..0] == "";
  }
}
