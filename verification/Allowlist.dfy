// The version allowlist, the purge decision and the live configuration.
module Allowlist {

  // ---- Library text functions ----

  predicate IsSpace(c: char) {
    var n := c as int;
    c in "\t\n\r " || n in {0x0B, 0x0C, 0x85, 0xA0, 0x1680, 0x2028, 0x2029, 0x202F, 0x205F, 0x3000}
    || 0x2000 <= n <= 0x200A
  }

  function TrimLeft(s: string): string {
    if s != "" && IsSpace(s[0]) then TrimLeft(s[1..]) else s
  }

  function TrimRight(s: string): string {
    if s != "" && IsSpace(s[|s| - 1]) then TrimRight(s[..|s| - 1]) else s
  }

  function Trim(s: string): string {
    TrimRight(TrimLeft(s))
  }

  // The parts between commas; there is always at least one.
  function Split(s: string): (parts: seq<string>)
    ensures |parts| >= 1
  {
    if s == "" then [""]
    else
      var rest := Split(s[1..]);
      if s[0] == ',' then [""] + rest else [[s[0]] + rest[0]] + rest[1..]
  }

  function Join(parts: seq<string>): string {
    if parts == [] then ""
    else if |parts| == 1 then parts[0]
    else parts[0] + "," + Join(parts[1..])
  }

  // ---- The parser ----

  // Non-empty, no white space at either end, no comma.
  predicate Clean(e: string) {
    e != "" && !IsSpace(e[0]) && !IsSpace(e[|e| - 1]) && ',' !in e
  }

  function Entries(parts: seq<string>): seq<string> {
    if parts == [] then []
    else
      var e := Trim(parts[0]);
      (if e != "" then [e] else []) + Entries(parts[1..])
  }

  function Parse(raw: string): seq<string> {
    Entries(Split(raw))
  }

  method PurgeSchemaAllowlist(raw: string) returns (out: seq<string>)
    ensures out == Parse(raw)
  {
    var parts := Split(raw);
    out := [];
    for i := 0 to |parts|
      invariant out + Entries(parts[i..]) == Entries(parts)
    {
      var e := Trim(parts[i]);
      assert parts[i..][1..] == parts[i + 1..];
      if e != "" {
        out := out + [e];
      }
    }
  }

  lemma {:induction false} TrimLeftKeeps(s: string)
    ensures TrimLeft(s) == "" || !IsSpace(TrimLeft(s)[0])
    ensures forall c | c in TrimLeft(s) :: c in s
  {
    if s != "" && IsSpace(s[0]) {
      TrimLeftKeeps(s[1..]);
    }
  }

  lemma {:induction false} TrimRightKeeps(s: string)
    ensures TrimRight(s) <= s
    ensures TrimRight(s) == "" || !IsSpace(TrimRight(s)[|TrimRight(s)| - 1])
  {
    if s != "" && IsSpace(s[|s| - 1]) {
      TrimRightKeeps(s[..|s| - 1]);
    }
  }

  lemma TrimIsClean(s: string)
    requires ',' !in s && Trim(s) != ""
    ensures Clean(Trim(s))
  {
    TrimLeftKeeps(s);
    TrimRightKeeps(TrimLeft(s));
    var e := Trim(s);
    assert e[0] == TrimLeft(s)[0];
  }

  lemma {:induction false} SplitHasNoComma(s: string)
    ensures forall p | p in Split(s) :: ',' !in p
  {
    if s != "" {
      SplitHasNoComma(s[1..]);
      var rest := Split(s[1..]);
      assert rest[0] in rest;
      forall p | p in Split(s)
        ensures ',' !in p
      {
        assert s[0] == ',' ==> p == "" || p in rest;
        assert s[0] != ',' ==> p == [s[0]] + rest[0] || p in rest;
      }
    }
  }

  lemma {:induction false} EntriesAreClean(parts: seq<string>)
    requires forall p | p in parts :: ',' !in p
    ensures forall e | e in Entries(parts) :: Clean(e)
  {
    if parts != [] {
      EntriesAreClean(parts[1..]);
      assert parts[0] in parts;
      if Trim(parts[0]) != "" {
        TrimIsClean(parts[0]);
      }
    }
  }

  // Whatever the administrator typed, every parsed entry is non-empty, trimmed and
  // comma-free: no stray comma can produce the prefix that matches every version.
  lemma ParsedEntriesAreClean(raw: string)
    ensures forall e | e in Parse(raw) :: Clean(e)
  {
    SplitHasNoComma(raw);
    EntriesAreClean(Split(raw));
  }

  lemma TrimOfClean(e: string)
    requires Clean(e)
    ensures Trim(e) == e
  {
  }

  lemma {:induction false} SplitOne(e: string)
    requires ',' !in e
    ensures Split(e) == [e]
  {
    if e != "" {
      SplitOne(e[1..]);
      assert e[0] in e;
      assert [e[0]] + e[1..] == e;
    }
  }

  lemma {:induction false} SplitAfterComma(e: string, rest: string)
    requires ',' !in e
    ensures Split(e + "," + rest) == [e] + Split(rest)
  {
    if e == "" {
      assert (e + "," + rest)[1..] == rest;
    } else {
      SplitAfterComma(e[1..], rest);
      assert e[0] in e;
      assert (e + "," + rest)[1..] == e[1..] + "," + rest;
      assert [e[0]] + e[1..] == e;
    }
  }

  lemma {:induction false} SplitInvertsJoin(list: seq<string>)
    requires list != [] && forall e | e in list :: ',' !in e
    ensures Split(Join(list)) == list
  {
    assert list[0] in list;
    if |list| == 1 {
      SplitOne(list[0]);
    } else {
      SplitInvertsJoin(list[1..]);
      SplitAfterComma(list[0], Join(list[1..]));
    }
  }

  lemma {:induction false} EntriesOfClean(list: seq<string>)
    requires forall e | e in list :: Clean(e)
    ensures Entries(list) == list
  {
    if list != [] {
      assert list[0] in list;
      TrimOfClean(list[0]);
      EntriesOfClean(list[1..]);
    }
  }

  // Parsing undoes comma-joining exactly on the lists a parse can produce.
  lemma ParseInvertsJoin(list: seq<string>)
    ensures Parse(Join(list)) == list <==> forall e | e in list :: Clean(e)
  {
    if forall e | e in list :: Clean(e) {
      if list == [] {
        assert Parse("") == [] by {
          assert Entries([""]) == Entries([""][1..]);
        }
      } else {
        SplitInvertsJoin(list);
        EntriesOfClean(list);
      }
    }
    ParsedEntriesAreClean(Join(list));
  }

  // ---- The decision ----

  datatype PurgeMode = Soft | Skip | Hard

  predicate VersionAllowed(version: string, allowlist: seq<string>) {
    exists allowed :: allowed in allowlist && allowed <= version
  }

  function PurgeDecision(enablePurge: bool, licensed: bool, version: string, allowlist: seq<string>): PurgeMode {
    if !enablePurge || licensed then Soft
    else if !VersionAllowed(version, allowlist) then Skip
    else Hard
  }

  datatype Configuration = Configuration(enablePurge: bool, allowlistRaw: string)

  // What a purge consults: configuration, licence and server version.
  datatype Environment = Environment(conf: Configuration, licensed: bool, version: string)

  function Decide(env: Environment): PurgeMode {
    PurgeDecision(env.conf.enablePurge, env.licensed, env.version, Parse(env.conf.allowlistRaw))
  }

  // Some listed entry, as the administrator separated and padded it, is a non-empty
  // prefix of the version.
  ghost predicate ListedPrefix(raw: string, version: string) {
    exists p :: p in Split(raw) && Trim(p) != "" && Trim(p) <= version
  }

  lemma {:induction false} EntriesMembers(parts: seq<string>, e: string)
    ensures e in Entries(parts) <==> e != "" && exists p :: p in parts && Trim(p) == e
  {
    if parts != [] {
      EntriesMembers(parts[1..], e);
      assert parts[0] in parts;
      assert parts == [parts[0]] + parts[1..];
    }
  }

  // The hard purge is chosen exactly under these conditions; in particular never
  // on a licensed server and never with a blank allowlist.
  lemma HardExactlyWhenGuarded(env: Environment)
    ensures Decide(env) == Hard <==>
      env.conf.enablePurge && !env.licensed && ListedPrefix(env.conf.allowlistRaw, env.version)
    ensures Decide(env) == Soft <==> !env.conf.enablePurge || env.licensed
  {
    var parts := Split(env.conf.allowlistRaw);
    if e :| e in Entries(parts) && e <= env.version {
      EntriesMembers(parts, e);
    }
    if p :| p in parts && Trim(p) != "" && Trim(p) <= env.version {
      EntriesMembers(parts, Trim(p));
    }
  }

  // The holder of the active configuration; its lock makes each call one step.
  class ConfigHolder {
    var conf: Configuration

    constructor (c: Configuration)
      ensures conf == c
    {
      conf := c;
    }

    method Get() returns (c: Configuration)
      ensures c == conf
    {
      c := conf;
    }

    method Set(c: Configuration)
      modifies this
      ensures conf == c
    {
      conf := c;
    }
  }
}
