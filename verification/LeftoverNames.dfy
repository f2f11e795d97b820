/** What the names beside a world say: a world being restored, one set aside for it, or neither. */
module LeftoverNames {
  import opened Bytes
  import opened TarFormat
  import opened ArchivePath

  // ".restoring-" and ".replaced-"
  const RESTORING: seq<byte> := [46, 114, 101, 115, 116, 111, 114, 105, 110, 103, 45]
  const REPLACED: seq<byte> := [46, 114, 101, 112, 108, 97, 99, 101, 100, 45]

  predicate IsHex(b: byte) { 48 <= b <= 57 || 97 <= b <= 102 }

  predicate IsSuffix(s: seq<byte>) { s != [] && forall i :: 0 <= i < |s| ==> IsHex(s[i]) }

  predicate IsServerChar(b: byte) { 48 <= b <= 57 || 65 <= b <= 90 || 97 <= b <= 122 || b == 95 || b == 45 }

  /** /^[A-Za-z0-9_-]{1,128}$/ */
  predicate IsServer(s: Name) { 1 <= |s| <= 128 && forall i :: 0 <= i < |s| ==> IsServerChar(s[i]) }

  function StagingName(server: Name, suffix: seq<byte>): Name { server + RESTORING + suffix }

  function AsideName(server: Name, suffix: seq<byte>): Name { server + REPLACED + suffix }

  /** Where the hexadecimal digits that end a name begin. */
  function HexStart(s: Name, k: nat): (h: nat)
    requires k <= |s|
    ensures h <= k && forall i :: h <= i < k ==> IsHex(s[i])
    ensures h > 0 ==> !IsHex(s[h - 1])
  {
    if k > 0 && IsHex(s[k - 1]) then HexStart(s, k - 1) else k
  }

  /** /^(.+)<marker>[0-9a-f]+$/: what stands before the marker. */
  function Marked(name: Name, marker: seq<byte>): (before: Option<Name>)
    ensures before.Some? ==> |before.value| < |name|
  {
    var h := HexStart(name, |name|);
    if h == |name| || h <= |marker| || name[h - |marker|..h] != marker || HasLineBreak(name[..h - |marker|]) then None
    else Some(name[..h - |marker|])
  }

  datatype Kind = StagingOf(server: Name) | AsideOf(server: Name) | Plain

  function Classify(name: Name): (kind: Kind)
    ensures !kind.Plain? ==> |kind.server| < |name|
  {
    if Marked(name, RESTORING).Some? then StagingOf(Marked(name, RESTORING).value)
    else if Marked(name, REPLACED).Some? then AsideOf(Marked(name, REPLACED).value)
    else Plain
  }

  lemma {:induction false} HexStartIs(s: Name, k: nat, h: nat)
    requires h <= k <= |s| && forall i :: h <= i < k ==> IsHex(s[i])
    requires h > 0 ==> !IsHex(s[h - 1])
    ensures HexStart(s, k) == h
    decreases k
  {
    if k > h {
      HexStartIs(s, k - 1, h);
    }
  }

  lemma SuffixStart(before: Name, marker: seq<byte>, suffix: seq<byte>)
    requires marker != [] && !IsHex(marker[|marker| - 1]) && IsSuffix(suffix)
    ensures HexStart(before + marker + suffix, |before + marker + suffix|) == |before + marker|
  {
    var name, h := before + marker + suffix, |before + marker|;
    assert name[h - 1] == marker[|marker| - 1];
    forall i | h <= i < |name| ensures IsHex(name[i]) {
      assert name[i] == suffix[i - h];
    }
    HexStartIs(name, |name|, h);
  }

  lemma ServerHasNoBreak(server: Name)
    requires IsServer(server)
    ensures !HasLineBreak(server) && DOT !in server
  {
    forall i | 0 <= i < |server| ensures !LineBreakAt(server, i) && server[i] != DOT {
      assert IsServerChar(server[i]);
    }
  }

  /** The names a restore makes are read back as that server's, whatever the suffix; a server's own name is neither. */
  lemma NamesReadBack(server: Name, suffix: seq<byte>)
    requires IsServer(server) && IsSuffix(suffix)
    ensures Classify(StagingName(server, suffix)) == StagingOf(server)
    ensures Classify(AsideName(server, suffix)) == AsideOf(server)
    ensures Classify(server) == Plain
  {
    ServerHasNoBreak(server);
    StagingReadsBack(server, suffix);
    AsideReadsBack(server, suffix);
    NoDotNoMark(server, RESTORING);
    NoDotNoMark(server, REPLACED);
  }

  lemma StagingReadsBack(server: Name, suffix: seq<byte>)
    requires server != [] && !HasLineBreak(server) && IsSuffix(suffix)
    ensures Classify(StagingName(server, suffix)) == StagingOf(server)
  {
    hide HexStart, HasLineBreak;
    SuffixStart(server, RESTORING, suffix);
    var name := StagingName(server, suffix);
    assert name[|server|..|server| + 11] == RESTORING && name[..|server|] == server;
  }

  lemma AsideReadsBack(server: Name, suffix: seq<byte>)
    requires server != [] && !HasLineBreak(server) && IsSuffix(suffix)
    ensures Classify(AsideName(server, suffix)) == AsideOf(server)
  {
    hide HexStart, HasLineBreak;
    SuffixStart(server, REPLACED, suffix);
    var name, h := AsideName(server, suffix), |server| + 10;
    assert name[|server|..h] == REPLACED && name[..|server|] == server;
    if h > 11 {
      assert name[h - 11..h][1] == name[|server|] == DOT;
      assert RESTORING[1] != DOT;
    }
  }

  lemma NoDotNoMark(name: Name, marker: seq<byte>)
    requires DOT !in name && marker != [] && marker[0] == DOT
    ensures Marked(name, marker) == None
  {
    hide HexStart;
    var h := HexStart(name, |name|);
  }

  lemma MarkedIs(name: Name, marker: seq<byte>)
    requires Marked(name, marker).Some? && marker != []
    ensures var before := Marked(name, marker).value;
      before != [] && !HasLineBreak(before) && exists suffix: seq<byte> :: IsSuffix(suffix) && name == before + marker + suffix
  {
    hide HexStart, HasLineBreak;
    var h := HexStart(name, |name|);
    var before, suffix := name[..h - |marker|], name[h..];
    assert IsSuffix(suffix) && name == before + marker + suffix;
  }

  /** What the sweep takes for a restore's: any text but nothing, ".restoring-" or ".replaced-", and hexadecimal digits to the end.
      Which of the two it is does not depend on the order they are tried in. */
  lemma ClassifyIff(name: Name, server: Name)
    ensures Classify(name) == StagingOf(server) <==>
      server != [] && !HasLineBreak(server) && exists suffix: seq<byte> ::
        IsSuffix(suffix) && name == server + [46, 114, 101, 115, 116, 111, 114, 105, 110, 103, 45] + suffix
    ensures Classify(name) == AsideOf(server) <==>
      server != [] && !HasLineBreak(server) && exists suffix: seq<byte> ::
        IsSuffix(suffix) && name == server + [46, 114, 101, 112, 108, 97, 99, 101, 100, 45] + suffix
  {
    hide Marked, HasLineBreak, IsSuffix;
    if server != [] && !HasLineBreak(server) {
      if suffix: seq<byte> :| IsSuffix(suffix) && name == server + RESTORING + suffix {
        StagingReadsBack(server, suffix);
      }
      if suffix: seq<byte> :| IsSuffix(suffix) && name == server + REPLACED + suffix {
        AsideReadsBack(server, suffix);
      }
    }
    if Marked(name, RESTORING).Some? {
      MarkedIs(name, RESTORING);
    } else if Marked(name, REPLACED).Some? {
      MarkedIs(name, REPLACED);
    }
  }
}
