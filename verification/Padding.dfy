// What the allowlist parser makes of a text as an administrator types it: padded
// entries between commas.
module Padding {
  import opened Allowlist

  // One part between commas.
  datatype Part = Part(left: string, entry: string, right: string)

  // Tab, newline, vertical tab, form feed, carriage return and space.
  predicate BlankChar(c: char) {
    c as int in {9, 10, 11, 12, 13, 32}
  }

  predicate Blank(s: string) {
    forall c | c in s :: BlankChar(c)
  }

  // Visible ASCII without the comma, spaces only inside; possibly nothing at all.
  predicate Plain(e: string) {
    && (forall c | c in e :: ' ' <= c <= '~' && c != ',')
    && (e != "" ==> e[0] != ' ' && e[|e| - 1] != ' ')
  }

  predicate WellTyped(parts: seq<Part>) {
    forall p | p in parts :: Blank(p.left) && Plain(p.entry) && Blank(p.right)
  }

  function Typed(p: Part): string {
    p.left + p.entry + p.right
  }

  function Texts(parts: seq<Part>): seq<string> {
    if parts == [] then [] else [Typed(parts[0])] + Texts(parts[1..])
  }

  // The entries that are not empty, in order.
  function Kept(parts: seq<Part>): seq<string> {
    if parts == [] then []
    else (if parts[0].entry != "" then [parts[0].entry] else []) + Kept(parts[1..])
  }

  lemma {:induction false} TrimLeftOfPadded(pad: string, s: string)
    requires Blank(pad) && (s != "" ==> !IsSpace(s[0]))
    ensures TrimLeft(pad + s) == s
  {
    if pad == "" {
      assert pad + s == s;
    } else {
      assert (pad + s)[1..] == pad[1..] + s;
      assert pad[0] in pad && forall c | c in pad[1..] :: c in pad;
      TrimLeftOfPadded(pad[1..], s);
    }
  }

  lemma {:induction false} TrimRightOfPadded(s: string, pad: string)
    requires Blank(pad) && (s != "" ==> !IsSpace(s[|s| - 1]))
    ensures TrimRight(s + pad) == s
  {
    if pad == "" {
      assert s + pad == s;
    } else {
      assert (s + pad)[..|s + pad| - 1] == s + pad[..|pad| - 1];
      assert pad[|pad| - 1] in pad && forall c | c in pad[..|pad| - 1] :: c in pad;
      TrimRightOfPadded(s, pad[..|pad| - 1]);
    }
  }

  lemma TrimOfTyped(p: Part)
    requires Blank(p.left) && Plain(p.entry) && Blank(p.right)
    ensures Trim(Typed(p)) == p.entry
  {
    var e := p.entry;
    if e == "" {
      assert Typed(p) == (p.left + p.right) + "";
      assert Blank(p.left + p.right);
      TrimLeftOfPadded(p.left + p.right, "");
    } else {
      assert e[0] in e && e[|e| - 1] in e;
      assert Typed(p) == p.left + (e + p.right);
      TrimLeftOfPadded(p.left, e + p.right);
      TrimRightOfPadded(e, p.right);
    }
  }

  lemma {:induction false} TypedHasNoComma(parts: seq<Part>)
    requires WellTyped(parts)
    ensures forall t | t in Texts(parts) :: ',' !in t
    ensures parts != [] ==> Texts(parts) != []
  {
    if parts != [] {
      assert parts[0] in parts;
      TypedHasNoComma(parts[1..]);
    }
  }

  lemma {:induction false} EntriesOfTyped(parts: seq<Part>)
    requires WellTyped(parts)
    ensures Entries(Texts(parts)) == Kept(parts)
  {
    if parts != [] {
      assert parts[0] in parts;
      TrimOfTyped(parts[0]);
      EntriesOfTyped(parts[1..]);
      assert Texts(parts)[1..] == Texts(parts[1..]);
    }
  }

  // However the entries are padded, and whatever empty parts stand between commas:
  // the parser returns the entries, bare and in order.
  lemma PaddingIsStripped(parts: seq<Part>)
    requires WellTyped(parts)
    ensures Parse(Join(Texts(parts))) == Kept(parts)
  {
    if parts == [] {
      assert Texts(parts) == [];
      assert Entries([""]) == Entries([""][1..]);
    } else {
      TypedHasNoComma(parts);
      SplitInvertsJoin(Texts(parts));
      EntriesOfTyped(parts);
    }
  }

  lemma {:induction false} KeptMembers(parts: seq<Part>, e: string)
    ensures e in Kept(parts) <==> e != "" && exists p :: p in parts && p.entry == e
  {
    if parts != [] {
      KeptMembers(parts[1..], e);
      assert parts == [parts[0]] + parts[1..];
    }
  }

  predicate StartsWith(version: string, e: string) {
    |e| <= |version| && version[..|e|] == e
  }

  // With purging enabled and no licence, a version is purged hard exactly when some
  // typed entry that is not empty starts it, and skipped otherwise.
  lemma TypedEntriesDecide(parts: seq<Part>, version: string)
    requires WellTyped(parts)
    ensures Decide(Environment(Configuration(true, Join(Texts(parts))), false, version)) ==
      if exists p :: p in parts && p.entry != "" && StartsWith(version, p.entry) then Hard else Skip
  {
    PaddingIsStripped(parts);
    if p :| p in parts && p.entry != "" && StartsWith(version, p.entry) {
      KeptMembers(parts, p.entry);
      assert p.entry <= version;
    }
    if e :| e in Kept(parts) && e <= version {
      KeptMembers(parts, e);
    }
  }
}
