/** internal/mcp/failrate.go: which address of an X-Forwarded-For chain is believed. */
module Forwarded {

  predicate Blank(c: char) {
    c == ' ' || c == '\t'
  }

  function Trim(s: string): (r: string)
    ensures |r| <= |s|
    ensures r != "" ==> !Blank(r[0]) && !Blank(r[|r| - 1])
    decreases |s|
  {
    if s != "" && Blank(s[0]) then Trim(s[1..])
    else if s != "" && Blank(s[|s| - 1]) then Trim(s[..|s| - 1])
    else s
  }

  /** Trimming takes blanks and tabs from both ends, all of them and nothing else. */
  lemma {:induction false} TrimStrips(before: string, s: string, after: string)
    requires forall k :: 0 <= k < |before| ==> before[k] in {' ', '\t'}
    requires forall k :: 0 <= k < |after| ==> after[k] in {' ', '\t'}
    requires s != "" ==> s[0] !in {' ', '\t'} && s[|s| - 1] !in {' ', '\t'}
    ensures Trim(before + s + after) == s
    decreases |before| + |after|
  {
    var all := before + s + after;
    if before != "" {
      assert all[0] == before[0] && all[1..] == before[1..] + s + after;
      TrimStrips(before[1..], s, after);
    } else if after != "" {
      if s == "" {
        assert all == after && all[1..] == before + s + after[1..];
        TrimStrips(before, s, after[1..]);
      } else {
        var rest := after[..|after| - 1];
        assert all[0] == s[0] && all[|all| - 1] == after[|after| - 1];
        assert all[..|all| - 1] == before + s + rest;
        TrimStrips(before, s, rest);
      }
    } else {
      assert all == s;
    }
  }

  /** The fields between commas. */
  function Split(s: string): (fields: seq<string>)
    ensures |fields| >= 1
  {
    if s == "" then [""]
    else
      var rest := Split(s[1..]);
      if s[0] == ',' then [""] + rest else [[s[0]] + rest[0]] + rest[1..]
  }

  function NonEmptyTrimmed(fields: seq<string>): seq<string> {
    if fields == [] then []
    else (if Trim(fields[0]) != "" then [Trim(fields[0])] else []) + NonEmptyTrimmed(fields[1..])
  }

  function Entries(xff: string): seq<string> {
    NonEmptyTrimmed(Split(xff))
  }

  lemma {:induction false} SplitAppend(a: string, b: string)
    ensures Split(a + "," + b) == Split(a) + Split(b)
  {
    var s := a + "," + b;
    if a == "" {
      assert s[1..] == b;
    } else {
      assert s[1..] == a[1..] + "," + b;
      SplitAppend(a[1..], b);
    }
  }

  lemma {:induction false} NonEmptyTrimmedAppend(f: seq<string>, g: seq<string>)
    ensures NonEmptyTrimmed(f + g) == NonEmptyTrimmed(f) + NonEmptyTrimmed(g)
  {
    if f == [] {
      assert f + g == g;
    } else {
      assert (f + g)[1..] == f[1..] + g;
      NonEmptyTrimmedAppend(f[1..], g);
    }
  }

  /** Joining two header values with a comma joins their entries, whatever they hold. */
  lemma EntriesAppend(a: string, b: string)
    ensures Entries(a + "," + b) == Entries(a) + Entries(b)
  {
    SplitAppend(a, b);
    NonEmptyTrimmedAppend(Split(a), Split(b));
  }

  lemma {:induction false} SplitNoComma(s: string)
    requires ',' !in s
    ensures Split(s) == [s]
  {
    if s != "" {
      SplitNoComma(s[1..]);
      assert [s[0]] + s[1..] == s;
    }
  }

  lemma FieldEntries(field: string)
    requires ',' !in field
    ensures Entries(field) == if Trim(field) == "" then [] else [Trim(field)]
  {
    SplitNoComma(field);
    assert NonEmptyTrimmed([field][1..]) == [];
  }

  /** A field with no comma is one entry, the text between its blanks, or none. */
  lemma OneFieldOneEntry(before: string, s: string, after: string)
    requires forall k :: 0 <= k < |before| ==> before[k] in {' ', '\t'}
    requires forall k :: 0 <= k < |after| ==> after[k] in {' ', '\t'}
    requires s != "" ==> s[0] !in {' ', '\t'} && s[|s| - 1] !in {' ', '\t'}
    requires ',' !in s
    ensures Entries(before + s + after) == if s == "" then [] else [s]
  {
    TrimStrips(before, s, after);
    FieldEntries(before + s + after);
  }

  lemma EmptyHasNoEntries()
    ensures Entries("") == []
  {
    FieldEntries("");
  }

  method IndexByte(s: string, b: char) returns (i: int)
    ensures -1 <= i < |s|
    ensures i == -1 ==> b !in s
    ensures i >= 0 ==> s[i] == b && b !in s[..i]
  {
    i := 0;
    while i < |s|
      invariant 0 <= i <= |s| && b !in s[..i]
    {
      if s[i] == b {
        return;
      }
      i := i + 1;
    }
    i := -1;
  }

  method TrimSpace(s: string) returns (r: string)
    ensures r == Trim(s)
  {
    var start, end := 0, |s|;
    assert s[start..end] == s;
    while start < end && Blank(s[start])
      invariant 0 <= start <= end == |s| && Trim(s[start..end]) == Trim(s)
    {
      assert s[start..end][1..] == s[start + 1..end];
      start := start + 1;
    }
    while end > start && Blank(s[end - 1])
      invariant start <= end <= |s| && Trim(s[start..end]) == Trim(s)
      invariant start < end ==> !Blank(s[start])
    {
      assert s[start..end][..end - start - 1] == s[start..end - 1];
      end := end - 1;
    }
    r := s[start..end];
  }

  function FirstField(s: string, i: int): string
    requires -1 <= i < |s|
  {
    if i < 0 then s else s[..i]
  }

  function AfterField(s: string, i: int): string
    requires -1 <= i < |s|
  {
    if i < 0 then "" else s[i + 1..]
  }

  /** The entry in a field, if it holds one. */
  function EntryIn(field: string): seq<string> {
    if Trim(field) == "" then [] else [Trim(field)]
  }

  lemma TakeField(s: string, i: int)
    requires -1 <= i < |s|
    requires if i < 0 then ',' !in s else s[i] == ',' && ',' !in s[..i]
    ensures Entries(s) == EntryIn(FirstField(s, i)) + Entries(AfterField(s, i))
  {
    hide Entries, Trim;
    FieldEntries(FirstField(s, i));
    EmptyHasNoEntries();
    if i >= 0 {
      assert s == s[..i] + "," + s[i + 1..];
      EntriesAppend(s[..i], s[i + 1..]);
    }
  }

  lemma Regroup<T>(out: seq<T>, head: seq<T>, tail: seq<T>)
    ensures out + (head + tail) == (out + head) + tail
  {
  }

  method ParseXFF(xff: string) returns (out: seq<string>)
    ensures out == Entries(xff)
  {
    hide Entries, Trim, FirstField;
    out := [];
    var rest := xff;
    EmptyHasNoEntries();
    while rest != ""
      invariant Entries(xff) == out + Entries(rest)
      decreases |rest|
    {
      var i := IndexByte(rest, ',');
      var field, tail := FirstField(rest, i), AfterField(rest, i);
      TakeField(rest, i);
      Regroup(out, EntryIn(field), Entries(tail));
      var p := TrimSpace(field);
      out := out + if p == "" then [] else [p];
      rest := tail;
    }
  }

  /** The address `hops` trusted proxies in from the socket peer, or the peer itself. */
  function BelievedIP(remote: string, xff: string, trustProxy: bool, hops: int): string {
    var chain := Entries(xff) + [remote];
    var i := |chain| - hops - 1;
    if trustProxy && 0 <= i < |chain| then chain[i] else remote
  }

  method ClientIP(remote: string, xff: string, trustProxy: bool, hops: int) returns (ip: string)
    ensures ip == BelievedIP(remote, xff, trustProxy, hops)
  {
    if !trustProxy {
      return remote;
    }
    var chain := ParseXFF(xff);
    chain := chain + [remote];
    var i := |chain| - hops - 1;
    if i < 0 || i >= |chain| {
      return remote;
    }
    ip := chain[i];
  }

  /** What a client writes in front of the header never reaches the answer, once the trusted
      proxies have added their entries: it is the entry `hops` from the right of what they added. */
  lemma TrustedEntryIsBelieved(remote: string, forged: string, added: string, hops: int)
    requires 1 <= hops <= |Entries(added)|
    ensures BelievedIP(remote, forged + "," + added, true, hops) == Entries(added)[|Entries(added)| - hops]
    ensures BelievedIP(remote, added, true, hops) == Entries(added)[|Entries(added)| - hops]
  {
    EntriesAppend(forged, added);
  }

  /** With more hops than entries, with none, or when proxies are not trusted, the peer is believed. */
  lemma ShortChainIsPeer(remote: string, xff: string, hops: int)
    ensures hops > |Entries(xff)| || hops < 1 ==> BelievedIP(remote, xff, true, hops) == remote
    ensures BelievedIP(remote, xff, false, hops) == remote
  {
  }

  lemma {:induction false} EntriesAreNonEmpty(fields: seq<string>, k: nat)
    requires k < |NonEmptyTrimmed(fields)|
    ensures NonEmptyTrimmed(fields)[k] != ""
  {
    hide Trim;
    var head := if Trim(fields[0]) != "" then [Trim(fields[0])] else [];
    assert NonEmptyTrimmed(fields) == head + NonEmptyTrimmed(fields[1..]);
    if k >= |head| {
      EntriesAreNonEmpty(fields[1..], k - |head|);
    }
  }

  /** The believed address is empty exactly when the socket peer's is and no trusted entry is chosen
      instead. */
  lemma EmptyAddressIff(remote: string, xff: string, trustProxy: bool, hops: int)
    ensures BelievedIP(remote, xff, trustProxy, hops) == "" <==>
            remote == "" && !(trustProxy && 1 <= hops <= |Entries(xff)|)
  {
    if trustProxy && 1 <= hops <= |Entries(xff)| {
      EntriesAreNonEmpty(Split(xff), |Entries(xff)| - hops);
    }
  }

  function Forgery(n: nat, name: string): string
    requires n >= 1
  {
    if n == 1 then name else name + "," + Forgery(n - 1, name)
  }

  lemma {:induction false} ForgeryEntries(n: nat, name: string)
    requires n >= 1 && Entries(name) == [name]
    ensures |Entries(Forgery(n, name))| == n && Entries(Forgery(n, name))[0] == name
  {
    if n > 1 {
      ForgeryEntries(n - 1, name);
      EntriesAppend(name, Forgery(n - 1, name));
    }
  }

  lemma LetterEntries(name: string)
    requires |name| == 1 && name[0] != ',' && !Blank(name[0])
    ensures Entries(name) == [name]
  {
    FieldEntries(name);
  }

  /** Fewer entries than hops: a client can then choose the address it is taken for. */
  lemma ShortChainIsForgeable(remote: string, added: string, hops: int) returns (forged: string)
    requires hops > |Entries(added)|
    ensures BelievedIP(remote, forged + "," + added, true, hops) != BelievedIP(remote, added, true, hops)
  {
    hide Entries, Trim, Forgery;
    var name := if remote == "f" then "g" else "f";
    LetterEntries(name);
    var n := hops - |Entries(added)|;
    forged := Forgery(n, name);
    ForgeryEntries(n, name);
    EntriesAppend(forged, added);
    ShortChainIsPeer(remote, added, hops);
  }

  /** The forged part is without effect exactly when the trusted part holds a hop for each proxy. */
  lemma ForgeryIsPowerlessIff(remote: string, added: string, hops: int)
    requires hops >= 1
    ensures (forall forged: string ::
               BelievedIP(remote, forged + "," + added, true, hops) == BelievedIP(remote, added, true, hops))
            <==> |Entries(added)| >= hops
  {
    if |Entries(added)| >= hops {
      forall forged: string
        ensures BelievedIP(remote, forged + "," + added, true, hops) == BelievedIP(remote, added, true, hops)
      {
        TrustedEntryIsBelieved(remote, forged, added, hops);
      }
    } else {
      var forged := ShortChainIsForgeable(remote, added, hops);
    }
  }
}
