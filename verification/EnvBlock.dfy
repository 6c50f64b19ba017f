/** The environment block of a model process (dse/fmigateway/session_win32.c:238-281). */
module EnvBlock {
  import opened Wrappers

  /** A C string without its terminator. */
  type Text = string

  predicate NulFree(s: string) {
    forall i :: 0 <= i < |s| ==> s[i] != '\0'
  }

  ghost predicate AllNulFree(entries: seq<Text>) {
    forall e :: e in entries ==> NulFree(e)
  }

  ghost predicate Parameters(envar: seq<Parameter>) {
    forall p :: p in envar ==> NulFree(p.name) && NulFree(p.value)
  }

  datatype Parameter = Parameter(name: Text, value: Text)

  /** The text of one variable. Its '=' keeps it from being empty. */
  function Entry(p: Parameter): (t: Text)
    ensures |t| == |p.name| + 1 + |p.value|
  {
    p.name + "=" + p.value
  }

  function EntriesOf(envar: seq<Parameter>): (r: seq<Text>)
    ensures |r| == |envar|
  {
    seq(|envar|, i requires 0 <= i < |envar| => Entry(envar[i]))
  }

  // ----- blocks -----

  /** Entries with their terminators, without the final one. */
  function Terminated(entries: seq<Text>): string {
    if entries == [] then "" else entries[0] + (['\0'] + Terminated(entries[1..]))
  }

  function Block(entries: seq<Text>): string {
    Terminated(entries) + ['\0']
  }

  /** strlen; the whole length when there is no terminator. */
  function StrLen(s: string): (n: nat)
    ensures n <= |s|
  {
    if s == "" || s[0] == '\0' then 0 else 1 + StrLen(s[1..])
  }

  /** How the receiving process reads a block: entries up to the first empty one; nothing when the
      memory ends before that. */
  function Parse(s: string): Option<seq<Text>>
    decreases |s|
  {
    if s == "" then None
    else if s[0] == '\0' then Some([])
    else
      var n := StrLen(s);
      if n == |s| then None
      else
        match Parse(s[n + 1..])
        case None => None
        case Some(rest) => Some([s[..n]] + rest)
  }

  lemma {:induction false} StrLenOf(t: Text, rest: string)
    requires NulFree(t) && rest != "" && rest[0] == '\0'
    ensures StrLen(t + rest) == |t|
  {
    if t == "" {
      assert t + rest == rest;
    } else {
      assert (t + rest)[0] == t[0] && (t + rest)[1..] == t[1..] + rest;
      StrLenOf(t[1..], rest);
    }
  }

  lemma {:induction false} FirstEntry(t: Text, rest: seq<Text>, after: string)
    ensures Block([t] + rest) + after == t + (['\0'] + (Block(rest) + after))
  {
    assert ([t] + rest)[1..] == rest;
  }

  /** A block is read back exactly, whatever follows it in memory. */
  lemma {:induction false} ParseBlock(entries: seq<Text>, after: string)
    requires "" !in entries && AllNulFree(entries)
    ensures Parse(Block(entries) + after) == Some(entries)
  {
    if entries == [] {
      assert (Block(entries) + after)[0] == '\0';
    } else {
      var first, rest := entries[0], entries[1..];
      assert entries == [first] + rest && first in entries;
      ParseBlock(rest, after);
      FirstEntry(first, rest, after);
      ParseFirst(first, Block(rest) + after);
    }
  }

  lemma {:induction false} ParseFirst(t: Text, more: string)
    requires t != "" && NulFree(t) && Parse(more).Some?
    ensures Parse(t + (['\0'] + more)) == Some([t] + Parse(more).value)
  {
    var s := t + (['\0'] + more);
    StrLenOf(t, ['\0'] + more);
    assert s[0] == t[0] && s[..|t|] == t && s[|t| + 1..] == more;
  }

  lemma {:induction false} TerminatedConcat(a: seq<Text>, b: seq<Text>)
    ensures Terminated(a + b) == Terminated(a) + Terminated(b)
  {
    if a == [] {
      assert a + b == b;
    } else {
      TerminatedConcat(a[1..], b);
      assert (a + b)[0] == a[0] && (a + b)[1..] == a[1..] + b;
      FourParts(a[0], ['\0'], Terminated(a[1..]), Terminated(b));
    }
  }

  lemma {:induction false} FourParts(a: string, b: string, c: string, d: string)
    ensures a + (b + (c + d)) == a + (b + c) + d
  {
  }

  /** A parameter's entry cannot end the list early, even with an empty name and value. */
  lemma {:induction false} EntriesAreTexts(envar: seq<Parameter>)
    requires Parameters(envar)
    ensures "" !in EntriesOf(envar) && AllNulFree(EntriesOf(envar))
  {
    forall e | e in EntriesOf(envar)
      ensures e != "" && NulFree(e)
    {
      var i :| 0 <= i < |envar| && Entry(envar[i]) == e;
      assert envar[i] in envar;
    }
  }

  // ----- building -----

  /** Total size of the parameters' entries with terminators. */
  ghost function EntriesSize(envar: seq<Parameter>): nat {
    |Terminated(EntriesOf(envar))|
  }

  lemma {:induction false} EntriesNext(envar: seq<Parameter>, k: nat)
    requires k < |envar|
    ensures Terminated(EntriesOf(envar[..k + 1])) == Terminated(EntriesOf(envar[..k])) + (Entry(envar[k]) + ['\0'])
  {
    assert EntriesOf(envar[..k + 1]) == EntriesOf(envar[..k]) + [Entry(envar[k])];
    TerminatedConcat(EntriesOf(envar[..k]), [Entry(envar[k])]);
    OneEntry(Entry(envar[k]));
  }

  lemma {:induction false} OneEntry(t: Text)
    ensures Terminated([t]) == t + ['\0']
  {
    assert [t][1..] == [];
  }

  lemma {:induction false} EntriesGrow(envar: seq<Parameter>, k: nat)
    requires k <= |envar|
    ensures EntriesSize(envar[..k]) <= EntriesSize(envar)
    decreases |envar| - k
  {
    if k == |envar| {
      assert envar[..k] == envar;
    } else {
      EntriesGrow(envar, k + 1);
      EntriesNext(envar, k);
    }
  }

  /** The scan of the parent block: its size up to and including the final terminator. */
  method ParentSize(parentEnv: array<char>, ghost parent: seq<Text>, ghost tail: string) returns (size: nat)
    requires "" !in parent && AllNulFree(parent) && parentEnv[..] == Block(parent) + tail
    ensures size == |Block(parent)|
  {
    var p := 0;
    size := 0;
    ghost var left := parent;
    assert parentEnv[0..] == parentEnv[..];
    while parentEnv[p] != '\0'
      invariant "" !in left && AllNulFree(left)
      invariant p < parentEnv.Length && parentEnv[p..] == Block(left) + tail
      invariant size == p && p + |Block(left)| == |Block(parent)|
      decreases |left|
    {
      ScanStep(parentEnv[p..], left, tail);
      var len := StrLen(parentEnv[p..]) + 1;
      assert parentEnv[p..][len..] == parentEnv[p + len..];
      size := size + len;
      p := p + len;
      left := left[1..];
    }
    assert parentEnv[p..][0] == '\0';
    EndsAtTerminator(left, tail);
    size := size + 1;
  }

  lemma {:induction false} ScanStep(s: string, left: seq<Text>, tail: string)
    requires "" !in left && AllNulFree(left) && s == Block(left) + tail && s[0] != '\0'
    ensures left != [] && StrLen(s) == |left[0]|
    ensures |Block(left)| == |left[0]| + 1 + |Block(left[1..])|
    ensures s[|left[0]| + 1..] == Block(left[1..]) + tail
  {
    if left != [] {
      var first, rest := left[0], left[1..];
      assert left == [first] + rest && first in left;
      FirstEntry(first, rest, tail);
      StrLenOf(first, ['\0'] + (Block(rest) + tail));
    }
  }

  lemma {:induction false} EndsAtTerminator(left: seq<Text>, tail: string)
    requires "" !in left && AllNulFree(left)
    ensures (Block(left) + tail)[0] == '\0' <==> left == []
  {
    if left != [] {
      var first := left[0];
      assert left == [first] + left[1..] && first in left;
      FirstEntry(first, left[1..], tail);
    }
  }

  /** The size of the new entries, with terminators and the final one. */
  method EnvSize(envar: seq<Parameter>) returns (size: nat)
    ensures size == EntriesSize(envar) + 1
  {
    size := 0;
    assert EntriesOf(envar[..0]) == [];
    for k := 0 to |envar|
      invariant size == EntriesSize(envar[..k])
    {
      EntriesNext(envar, k);
      size := size + |envar[k].name| + 1 + |envar[k].value| + 1;
    }
    assert envar[..|envar|] == envar;
    size := size + 1;
  }

  /** memcpy of the first `n` characters. */
  method CopyInto(dst: array<char>, at: nat, src: string, n: nat)
    requires n <= |src| && at + n <= dst.Length
    modifies dst
    ensures dst[..] == old(dst[..])[..at] + src[..n] + old(dst[..])[at + n..]
  {
    forall i | 0 <= i < n {
      dst[at + i] := src[i];
    }
  }

  /** snprintf(ptr, size, "%s=%s"): writes at most `size` characters including the terminator and
      returns the length of the whole text. */
  method Print(dst: array<char>, ptr: nat, size: nat, text: Text) returns (len: nat)
    requires size > 0 && ptr + (if |text| < size then |text| + 1 else size) <= dst.Length
    modifies dst
    ensures len == |text|
    ensures |text| < size ==> dst[..] == old(dst[..])[..ptr] + text + ['\0'] + old(dst[..])[ptr + |text| + 1..]
  {
    var written := if |text| < size then text else text[..size - 1];
    CopyInto(dst, ptr, written + ['\0'], |written| + 1);
    assert (written + ['\0'])[..|written| + 1] == written + ['\0'];
    len := |text|;
  }

  /** The block of the new entries; every write is inside it although each call is given the whole size. */
  method BuildEntries(envar: seq<Parameter>, size: nat) returns (envBlock: array<char>)
    requires size == EntriesSize(envar) + 1
    ensures fresh(envBlock) && envBlock[..] == Block(EntriesOf(envar))
  {
    envBlock := new char[size](_ => '\0');
    var ptr := 0;
    assert EntriesOf(envar[..0]) == [];
    for k := 0 to |envar|
      invariant envBlock.Length == size && ptr == EntriesSize(envar[..k]) && ptr < size
      invariant envBlock[..ptr] == Terminated(EntriesOf(envar[..k]))
    {
      EntriesNext(envar, k);
      EntriesGrow(envar, k + 1);
      ghost var before := envBlock[..];
      var len := Print(envBlock, ptr, size, Entry(envar[k]));
      assert envBlock[..ptr + len + 1] == before[..ptr] + (Entry(envar[k]) + ['\0']);
      ptr := ptr + len + 1;
    }
    assert envar[..|envar|] == envar;
    envBlock[ptr] := '\0';
    assert envBlock[..] == envBlock[..ptr] + ['\0'];
  }

  lemma {:induction false} Overlaid(half: string, cut: nat, entries: string, block: string)
    requires cut + |entries| + 1 == |half| && half[|half| - 1] == '\0'
    requires block == half[..cut] + entries + half[cut + |entries|..]
    ensures block == half[..cut] + entries + ['\0']
  {
    assert half[cut + |entries|..] == ['\0'];
  }

  /** The two memcpy calls: the second starts on the final terminator of the parent block. */
  method Combine(parentEnv: array<char>, parentEnvSize: nat, envBlock: array<char>) returns (block: array<char>)
    requires 0 < parentEnvSize <= parentEnv.Length && envBlock.Length > 0
    ensures fresh(block) && block[..] == parentEnv[..parentEnvSize - 1] + envBlock[..] + ['\0']
  {
    var total := parentEnvSize + envBlock.Length;
    block := CopyParent(parentEnv, parentEnvSize, total);
    ghost var half := block[..];
    CopyInto(block, parentEnvSize - 1, envBlock[..], envBlock.Length);
    assert envBlock[..][..envBlock.Length] == envBlock[..];
    Overlaid(half, parentEnvSize - 1, envBlock[..], block[..]);
  }

  /** The first memcpy, with the terminator behind it. */
  method CopyParent(parentEnv: array<char>, parentEnvSize: nat, total: nat) returns (block: array<char>)
    requires 0 < parentEnvSize <= parentEnv.Length && parentEnvSize < total
    ensures fresh(block) && block.Length == total
    ensures block[..parentEnvSize - 1] == parentEnv[..parentEnvSize - 1]
    ensures block[total - 1] == '\0'
  {
    block := new char[total](_ => '\0');
    CopyInto(block, 0, parentEnv[..], parentEnvSize);
    block[parentEnvSize - 1] := '\0';
  }

  // ----- reading variables back -----

  /** Position of the first '=' of an entry; its length when there is none. */
  function EqualsAt(entry: Text): (n: nat)
    ensures n <= |entry| && (n < |entry| ==> entry[n] == '=')
    ensures forall i :: 0 <= i < n ==> entry[i] != '='
  {
    if entry == "" || entry[0] == '=' then 0 else 1 + EqualsAt(entry[1..])
  }

  /** The entry defines the variable: what stands before its first '=' is the name, and what stands behind the
      value. */
  predicate Defines(entry: Text, name: Text, value: Text) {
    var n := EqualsAt(entry);
    n < |entry| && entry[..n] == name && entry[n + 1..] == value
  }

  /** How a process looks up a variable: the value of the first entry with that name. */
  function Lookup(entries: seq<Text>, name: Text): Option<Text> {
    if entries == [] then None
    else
      var n := EqualsAt(entries[0]);
      if n < |entries[0]| && entries[0][..n] == name then Some(entries[0][n + 1..]) else Lookup(entries[1..], name)
  }

  /** An entry is read back as its parameter exactly when the name has no '='. */
  lemma {:induction false} EntryDefines(p: Parameter)
    ensures Defines(Entry(p), p.name, p.value) <==> '=' !in p.name
  {
    var e, n := Entry(p), EqualsAt(Entry(p));
    assert e[|p.name|] == '=' && e[..|p.name|] == p.name && e[|p.name| + 1..] == p.value;
    if '=' !in p.name {
      assert forall i :: 0 <= i < |p.name| ==> e[i] == p.name[i] && p.name[i] in p.name;
      assert n == |p.name|;
    } else {
      var i :| 0 <= i < |p.name| && p.name[i] == '=';
      assert e[i] == '=';
      assert n < |p.name|;
    }
  }

  predicate HasName(entry: Text, name: Text) {
    var n := EqualsAt(entry);
    n < |entry| && entry[..n] == name
  }

  /** No entry before position `k` has that name. */
  ghost predicate NewAt(entries: seq<Text>, k: nat, name: Text) {
    k <= |entries| && forall i :: 0 <= i < k ==> !HasName(entries[i], name)
  }

  lemma {:induction false} LookupFinds(entries: seq<Text>, k: nat, name: Text, value: Text)
    requires k < |entries| && Defines(entries[k], name, value) && NewAt(entries, k, name)
    ensures Lookup(entries, name) == Some(value)
  {
    if k > 0 {
      assert !HasName(entries[0], name);
      LookupFinds(entries[1..], k - 1, name, value);
    }
  }

  /** The entries are those of the parent followed by one for each parameter, which is read back with its name and
      value when the name has no '=', and found by a lookup when no earlier entry has that name. */
  ghost predicate Extends(entries: seq<Text>, parent: seq<Text>, envar: seq<Parameter>) {
    && |entries| == |parent| + |envar| && entries[..|parent|] == parent
    && forall k :: 0 <= k < |envar| && '=' !in envar[k].name ==>
         && Defines(entries[|parent| + k], envar[k].name, envar[k].value)
         && (NewAt(entries, |parent| + k, envar[k].name) ==> Lookup(entries, envar[k].name) == Some(envar[k].value))
  }

  lemma {:induction false} AllExtends(parent: seq<Text>, envar: seq<Parameter>)
    ensures Extends(parent + EntriesOf(envar), parent, envar)
  {
    var entries := parent + EntriesOf(envar);
    assert entries[..|parent|] == parent;
    forall k | 0 <= k < |envar| && '=' !in envar[k].name
      ensures Defines(entries[|parent| + k], envar[k].name, envar[k].value)
      ensures NewAt(entries, |parent| + k, envar[k].name) ==> Lookup(entries, envar[k].name) == Some(envar[k].value)
    {
      EntryDefines(envar[k]);
      if NewAt(entries, |parent| + k, envar[k].name) {
        LookupFinds(entries, |parent| + k, envar[k].name, envar[k].value);
      }
    }
  }

  /** _build_env: without parameters there is no block; otherwise the parent's block, its final terminator
      overwritten by the new entries. One zeroed character is left over behind the block. */
  method BuildEnv(envar: Option<seq<Parameter>>, parentEnv: array<char>, ghost parent: seq<Text>, ghost tail: string)
    returns (combined: array?<char>)
    requires "" !in parent && AllNulFree(parent) && parentEnv[..] == Block(parent) + tail
    requires envar.Some? ==> Parameters(envar.value)
    ensures combined == null <==> envar == None
    ensures combined != null ==> combined[..] == Block(parent + EntriesOf(envar.value)) + ['\0']
    ensures combined != null ==> Parse(combined[..]) == Some(parent + EntriesOf(envar.value))
    ensures combined != null ==> Extends(Parse(combined[..]).value, parent, envar.value)
  {
    if envar == None {
      return null;
    }
    var parentEnvSize := ParentSize(parentEnv, parent, tail);
    var envSize := EnvSize(envar.value);
    var envBlock := BuildEntries(envar.value, envSize);
    assert parentEnv[..parentEnvSize - 1] == Terminated(parent);
    var block := Combine(parentEnv, parentEnvSize, envBlock);
    CombinedBlock(block[..], parent, envar.value);
    AllExtends(parent, envar.value);
    return block;
  }

  lemma {:induction false} CombinedBlock(mem: string, parent: seq<Text>, envar: seq<Parameter>)
    requires "" !in parent && AllNulFree(parent) && Parameters(envar)
    requires mem == Terminated(parent) + Block(EntriesOf(envar)) + ['\0']
    ensures mem == Block(parent + EntriesOf(envar)) + ['\0']
    ensures Parse(mem) == Some(parent + EntriesOf(envar))
  {
    var all := parent + EntriesOf(envar);
    TerminatedConcat(parent, EntriesOf(envar));
    EntriesAreTexts(envar);
    ParseBlock(all, ['\0']);
  }
}
