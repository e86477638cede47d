// The newc cpio writer (build.go:562-616) against a reader written from the
// "New ASCII Format" section of cpio(5).
module Cpio {
  import opened Options
  import opened Text

  // --- hexadecimal fields -------------------------------------------------

  predicate HexDigit(c: char) {
    '0' <= c <= '9' || 'A' <= c <= 'F'
  }

  function HexChar(n: nat): char
    requires n < 16
  {
    if n < 10 then ('0' as int + n) as char else ('A' as int + n - 10) as char
  }

  function HexCharValue(c: char): (n: nat)
    ensures n < 16
  {
    if '0' <= c <= '9' then c as int - '0' as int
    else if 'A' <= c <= 'F' then c as int - 'A' as int + 10
    else 0
  }

  function HexText(v: nat): (s: string)
    ensures |s| > 0
  {
    if v < 16 then [HexChar(v)] else HexText(v / 16) + [HexChar(v % 16)]
  }

  function Zeros(n: nat, c: char): (s: string)
    ensures |s| == n
  {
    seq(n, _ => c)
  }

  // %08X: at least eight digits.
  function Hex8(v: nat): string {
    var t := HexText(v);
    if |t| < 8 then Zeros(8 - |t|, '0') + t else t
  }

  function HexValue(s: string): nat {
    if s == [] then 0 else 16 * HexValue(s[..|s| - 1]) + HexCharValue(s[|s| - 1])
  }

  predicate AllHex(s: string) {
    forall i | 0 <= i < |s| :: HexDigit(s[i])
  }

  function Pow16(n: nat): nat {
    if n == 0 then 1 else 16 * Pow16(n - 1)
  }

  lemma {:induction false} HexTextValue(v: nat, n: nat)
    requires v < Pow16(n) && n >= 1
    ensures |HexText(v)| <= n && AllHex(HexText(v)) && HexValue(HexText(v)) == v
  {
    if v < 16 {
      assert HexText(v)[..0] == [];
    } else {
      HexTextValue(v / 16, n - 1);
      assert HexText(v)[..|HexText(v)| - 1] == HexText(v / 16);
    }
  }

  lemma {:induction false} LeadingZeros(n: nat, t: string)
    ensures HexValue(Zeros(n, '0') + t) == HexValue(t)
  {
    var s := Zeros(n, '0') + t;
    if t == [] {
      assert s == Zeros(n, '0');
      if n > 0 {
        LeadingZeros(n - 1, t);
        assert s[..|s| - 1] == Zeros(n - 1, '0') == Zeros(n - 1, '0') + t;
      }
    } else {
      LeadingZeros(n, t[..|t| - 1]);
      assert s[..|s| - 1] == Zeros(n, '0') + t[..|t| - 1];
    }
  }

  // A number below 2^32 takes eight digits, and they say it.
  lemma Hex8Value(v: nat)
    requires v < 0x1_0000_0000
    ensures |Hex8(v)| == 8 && AllHex(Hex8(v)) && HexValue(Hex8(v)) == v
  {
    assert Pow16(4) == 0x1_0000;
    assert Pow16(8) == 0x1_0000_0000;
    HexTextValue(v, 8);
    var t := HexText(v);
    LeadingZeros(8 - |t|, t);
  }

  // --- the writer ---------------------------------------------------------

  const MAGIC: string := "070701"
  const TRAILER: string := "TRAILER!!!"

  function Pad(n: nat): (s: string)
    ensures (n + |s|) % 4 == 0 && |s| < 4
  {
    if n % 4 != 0 then Zeros(4 - n % 4, '\0') else ""
  }

  // The thirteen fields of a header.
  function Fields(mode: nat, size: nat, ino: nat, nlink: nat, namesize: nat): seq<nat> {
    [ino, mode, 0, 0, nlink, 0, size, 0, 0, 0, 0, namesize, 0]
  }

  function FieldText(fields: seq<nat>): string {
    if fields == [] then "" else Hex8(fields[0]) + FieldText(fields[1..])
  }

  function HeaderBytes(name: string, mode: nat, size: nat, ino: nat, nlink: nat): string {
    MAGIC + FieldText(Fields(mode, size, ino, nlink, |name| + 1)) + (name + "\0") + Pad(110 + |name| + 1)
  }

  // One entry as it stands in an archive.
  datatype Entry = Entry(name: string, mode: nat, ino: nat, nlink: nat, data: string)

  function EntryBytes(e: Entry): string {
    HeaderBytes(e.name, e.mode, |e.data|, e.ino, e.nlink) + (e.data + Pad(|e.data|))
  }

  function Image(es: seq<Entry>): string {
    if es == [] then "" else EntryBytes(es[0]) + Image(es[1..])
  }

  lemma {:induction false} ImageAppend(a: seq<Entry>, b: seq<Entry>)
    ensures Image(a + b) == Image(a) + Image(b)
  {
    hide EntryBytes;
    if a == [] {
      assert a + b == b;
    } else {
      ImageAppend(a[1..], b);
      assert (a + b)[1..] == a[1..] + b;
      Assoc(EntryBytes(a[0]), Image(a[1..]), Image(b));
    }
  }

  // What the writer is asked for.
  datatype Op =
    | Dir(name: string)
    | File(name: string, data: string, perm: bv32)
    | Links(names: seq<string>, data: string, perm: bv32)

  const DIR_MODE: bv32 := 0x41ed      // 0o040755
  const REGULAR: bv32 := 0x8000       // 0o100000

  // Of several links only the last carries the contents.
  function LinkData(names: seq<string>, i: nat, data: string): string {
    if i == |names| - 1 then data else ""
  }

  function OpEntries(op: Op, ino: nat): seq<Entry> {
    match op
    case Dir(name) => [Entry(name, DIR_MODE as nat, ino, 1, "")]
    case File(name, data, perm) => [Entry(name, (REGULAR | perm) as nat, ino, 1, data)]
    case Links(names, data, perm) =>
      seq(|names|, i requires 0 <= i < |names| =>
        Entry(names[i], (REGULAR | perm) as nat, ino, |names|, LinkData(names, i, data)))
  }

  // Each call takes one inode number, whatever it writes.
  function Entries(ops: seq<Op>, ino: nat): seq<Entry> {
    if ops == [] then [] else OpEntries(ops[0], ino) + Entries(ops[1..], ino + 1)
  }

  function Closing(ino: nat): string {
    HeaderBytes(TRAILER, 0, 0, ino, 1)
  }

  class Writer {
    var w: string
    var ino: nat

    constructor ()
      ensures w == "" && ino == 1
    {
      w, ino := "", 1;
    }

    method Header(name: string, mode: nat, size: nat)
      modifies this
      ensures w == old(w) + HeaderBytes(name, mode, size, old(ino), 1) && ino == old(ino) + 1
    {
      HeaderLinks(name, mode, size, ino, 1);
      ino := ino + 1;
    }

    method HeaderLinks(name: string, mode: nat, size: nat, ino: nat, nlink: nat)
      modifies this`w
      ensures w == old(w) + HeaderBytes(name, mode, size, ino, nlink)
    {
      hide FieldText;
      hide Pad;
      ghost var was := w;
      var namesize := |name| + 1;
      // One Fprintf of thirteen %08X verbs.
      var fixed := MAGIC + FieldText([ino, mode, 0, 0, nlink, 0, size, 0, 0, 0, 0, namesize, 0]);
      w := w + fixed;
      Write(name + "\0");
      PadTo(110 + namesize);
      Assoc4(was, fixed, name + "\0", Pad(110 + namesize));
    }

    method Write(b: string)
      modifies this`w
      ensures w == old(w) + b
    {
      w := w + b;
    }

    method PadTo(n: nat)
      modifies this`w
      ensures w == old(w) + Pad(n)
    {
      var r := n % 4;
      if r != 0 {
        w := w + Zeros(4 - r, '\0');
      }
    }

    method AddDir(name: string)
      modifies this
      ensures w == old(w) + Image(OpEntries(Dir(name), old(ino))) && ino == old(ino) + 1
    {
      hide HeaderBytes;
      ghost var was := w;
      Header(name, DIR_MODE as nat, 0);
      OneEntry(was, Entry(name, DIR_MODE as nat, old(ino), 1, ""));
    }

    method AddFile(name: string, data: string, perm: bv32)
      modifies this
      ensures w == old(w) + Image(OpEntries(File(name, data, perm), old(ino))) && ino == old(ino) + 1
    {
      hide HeaderBytes;
      hide Pad;
      ghost var was := w;
      var mode := (REGULAR | perm) as nat;
      Header(name, mode, |data|);
      Write(data);
      PadTo(|data|);
      OneEntry(was, Entry(name, mode, old(ino), 1, data));
    }

    method AddLinks(names: seq<string>, data: string, perm: bv32)
      modifies this
      ensures w == old(w) + Image(OpEntries(Links(names, data, perm), old(ino))) && ino == old(ino) + 1
    {
      hide HeaderBytes;
      hide Pad;
      hide EntryBytes;
      hide Image;
      hide OpEntries;
      var shared := ino;
      ino := ino + 1;
      var mode := (REGULAR | perm) as nat;
      ghost var was := w;
      ghost var es := OpEntries(Links(names, data, perm), shared);
      NothingWritten(was);
      LinkCount(names, data, perm, shared);
      for i := 0 to |names|
        invariant ino == old(ino) + 1
        invariant w == was + Image(es[..i])
      {
        ghost var before := w;
        var size := if i == |names| - 1 then |data| else 0;
        HeaderLinks(names[i], mode, size, shared, |names|);
        if size > 0 {
          Write(data);
          PadTo(|data|);
        }
        LinkEntryAt(names, data, perm, shared, i);
        OneEntry(before, es[i]);
        OneMore(was, es, i);
      }
      assert es[..|names|] == es;
    }

    method Close()
      modifies this
      ensures w == old(w) + Closing(old(ino)) && ino == old(ino) + 1
    {
      Header(TRAILER, 0, 0);
    }
  }

  // Any sequence of calls, then close.
  method Pack(ops: seq<Op>) returns (archive: string)
    ensures archive == Image(Entries(ops, 1)) + Closing(|ops| + 1)
  {
    hide Image;
    hide OpEntries;
    var c := new Writer();
    assert ops[..0] == [];
    NothingWritten("");
    for k := 0 to |ops|
      invariant c.ino == k + 1 && c.w == Image(Entries(ops[..k], 1))
    {
      match ops[k] {
        case Dir(name) => c.AddDir(name);
        case File(name, data, perm) => c.AddFile(name, data, perm);
        case Links(names, data, perm) => c.AddLinks(names, data, perm);
      }
      assert ops[..k + 1] == ops[..k] + [ops[k]];
      EntriesSnoc(ops[..k], ops[k], 1);
      ImageAppend(Entries(ops[..k], 1), OpEntries(ops[k], k + 1));
    }
    assert ops[..|ops|] == ops;
    c.Close();
    archive := c.w;
  }

  lemma {:induction false} EntriesSnoc(ops: seq<Op>, op: Op, ino: nat)
    ensures Entries(ops + [op], ino) == Entries(ops, ino) + OpEntries(op, ino + |ops|)
  {
    hide OpEntries;
    if ops == [] {
      assert [op][1..] == [];
      assert ops + [op] == [op];
      assert Entries([op], ino) == OpEntries(op, ino) + Entries([], ino + 1);
    } else {
      EntriesSnoc(ops[1..], op, ino + 1);
      assert (ops + [op])[1..] == ops[1..] + [op];
    }
  }

  lemma LinkCount(names: seq<string>, data: string, perm: bv32, ino: nat)
    ensures |OpEntries(Links(names, data, perm), ino)| == |names|
  {
  }

  lemma LinkEntryAt(names: seq<string>, data: string, perm: bv32, ino: nat, i: nat)
    requires i < |names|
    ensures var es := OpEntries(Links(names, data, perm), ino);
      |es| == |names| && es[i] == Entry(names[i], (REGULAR | perm) as nat, ino, |names|, LinkData(names, i, data))
  {
  }

  lemma OneMore(was: string, es: seq<Entry>, i: nat)
    requires i < |es|
    ensures (was + Image(es[..i])) + Image([es[i]]) == was + Image(es[..i + 1])
  {
    hide Image;
    ImageAppend(es[..i], [es[i]]);
    assert es[..i + 1] == es[..i] + [es[i]];
    Assoc(was, Image(es[..i]), Image([es[i]]));
  }

  lemma NothingWritten(was: string)
    ensures Image([]) == "" && was + Image([]) == was
  {
  }

  // A header, and the data and its padding when there are any, are one entry.
  lemma OneEntry(was: string, e: Entry)
    ensures was + HeaderBytes(e.name, e.mode, |e.data|, e.ino, e.nlink) + e.data + Pad(|e.data|) == was + Image([e])
    ensures e.data == "" ==> was + HeaderBytes(e.name, e.mode, 0, e.ino, e.nlink) == was + Image([e])
  {
    hide HeaderBytes;
    assert [e][1..] == [];
    Assoc4(was, HeaderBytes(e.name, e.mode, |e.data|, e.ino, e.nlink), e.data, Pad(|e.data|));
  }

  lemma Assoc(a: string, b: string, c: string)
    ensures (a + b) + c == a + (b + c)
  {
  }

  lemma Assoc4(a: string, b: string, c: string, d: string)
    ensures a + b + c + d == a + (b + c + d) && a + b + c + d == a + (b + (c + d)) && b + "" == b
  {
  }

  // --- the reader ---------------------------------------------------------

  // The nth eight-digit field after the magic.
  function Field(h: string, n: nat): nat
    requires 6 + 8 * n + 8 <= |h|
  {
    HexValue(h[6 + 8 * n..6 + 8 * n + 8])
  }

  function Aligned(n: nat): (r: nat)
    ensures n <= r < n + 4 && r % 4 == 0
  {
    n + (4 - n % 4) % 4
  }

  // The next entry and where the one after it starts; None for bytes that
  // are not a newc header with its name and data.
  function ReadEntry(s: string): (r: Option<(Entry, nat)>)
    ensures r.Some? ==> 110 < r.value.1 <= |s|
  {
    if |s| < 110 || s[..6] != MAGIC || !AllHex(s[6..110]) then None else
    var ino, mode, nlink, size, namesize := Field(s, 0), Field(s, 1), Field(s, 4), Field(s, 6), Field(s, 11);
    if namesize == 0 || Aligned(110 + namesize) + Aligned(size) > |s|
      || Find(s[110..], '\0') != namesize - 1 then None else
    var data := Aligned(110 + namesize);
    Some((Entry(s[110..110 + namesize - 1], mode, ino, nlink, s[data..data + size]), data + Aligned(size)))
  }

  // The entries up to the trailer.
  function Read(s: string): Option<seq<Entry>>
    decreases |s|
  {
    match ReadEntry(s)
    case None => None
    case Some((e, next)) =>
      if e.name == TRAILER then Some([])
      else match Read(s[next..])
        case None => None
        case Some(es) => Some([e] + es)
  }

  // Links are one file by their inode: its contents are what the last entry
  // of the inode that has data carries.
  function Contents(es: seq<Entry>, ino: nat): string {
    if es == [] then ""
    else if es[|es| - 1].ino == ino && es[|es| - 1].data != "" then es[|es| - 1].data
    else Contents(es[..|es| - 1], ino)
  }

  datatype Member = Member(name: string, mode: nat, contents: string)

  function Resolve(es: seq<Entry>): seq<Member> {
    seq(|es|, i requires 0 <= i < |es| => Member(es[i].name, es[i].mode, Contents(es, es[i].ino)))
  }

  // --- reading one entry back ---------------------------------------------

  predicate AllSmall(fields: seq<nat>) {
    forall i | 0 <= i < |fields| :: fields[i] < 0x1_0000_0000
  }

  lemma {:induction false} FieldTextAt(fields: seq<nat>, n: nat)
    requires n < |fields| && AllSmall(fields)
    ensures |FieldText(fields)| == 8 * |fields|
    ensures FieldText(fields)[8 * n..8 * n + 8] == Hex8(fields[n])
  {
    hide Hex8;
    Hex8Value(fields[0]);
    var rest := fields[1..];
    if rest != [] {
      FieldTextAt(rest, if n == 0 then 0 else n - 1);
      if n > 0 {
        assert FieldText(fields)[8 * n..8 * n + 8] == FieldText(rest)[8 * (n - 1)..8 * (n - 1) + 8];
      }
    }
  }

  lemma {:induction false} FieldTextHex(fields: seq<nat>)
    requires AllSmall(fields)
    ensures AllHex(FieldText(fields)) && |FieldText(fields)| == 8 * |fields|
  {
    hide Hex8;
    if fields != [] {
      Hex8Value(fields[0]);
      FieldTextHex(fields[1..]);
    }
  }

  // What eight hexadecimal digits can hold.
  predicate Fits(e: Entry) {
    e.mode < 0x1_0000_0000 && |e.data| < 0x1_0000_0000 && e.ino < 0x1_0000_0000 && e.nlink < 0x1_0000_0000
    && |e.name| + 1 < 0x1_0000_0000
  }

  lemma HeaderFields(name: string, mode: nat, size: nat, ino: nat, nlink: nat, tail: string)
    requires |name| + 1 < 0x1_0000_0000 && mode < 0x1_0000_0000 && size < 0x1_0000_0000
    requires ino < 0x1_0000_0000 && nlink < 0x1_0000_0000
    ensures var s := MAGIC + FieldText(Fields(mode, size, ino, nlink, |name| + 1)) + tail;
      && |s| == 110 + |tail| && s[..6] == MAGIC && AllHex(s[6..110]) && s[110..] == tail
      && Field(s, 0) == ino && Field(s, 1) == mode && Field(s, 4) == nlink && Field(s, 6) == size
      && Field(s, 11) == |name| + 1
  {
    hide Hex8;
    hide HexValue;
    hide FieldText;
    var f := Fields(mode, size, ino, nlink, |name| + 1);
    FieldTextHex(f);
    var s := MAGIC + FieldText(f) + tail;
    assert s[6..110] == FieldText(f);
    forall n: nat | n < 13 ensures Field(s, n) == f[n] {
      FieldTextAt(f, n);
      Hex8Value(f[n]);
      assert s[6 + 8 * n..6 + 8 * n + 8] == FieldText(f)[8 * n..8 * n + 8];
    }
  }

  lemma PadIsAligned(n: nat)
    ensures n + |Pad(n)| == Aligned(n)
  {
  }

  // The four parts of an entry behind the fixed fields, and where they stand.
  lemma Parts(s: string, head: string, name: string, pad: string, data: string, rest: string)
    requires s == head + ((name + pad) + (data + rest))
    ensures s[|head|..|head| + |name|] == name
    ensures var at := |head| + |name| + |pad|; s[at..at + |data|] == data
  {
  }

  lemma Regroup(fixed: string, name: string, pad: string, data: string, end: string, rest: string)
    ensures ((fixed + name + pad) + (data + end)) + rest == fixed + ((name + pad) + (data + (end + rest)))
  {
  }

  // An entry's bytes, cut where the reader cuts them.
  lemma EntryLayout(e: Entry, rest: string)
    requires Fits(e)
    ensures var s := EntryBytes(e) + rest;
      var n := |e.name| + 1;
      var at := Aligned(110 + n);
      && at + Aligned(|e.data|) == |EntryBytes(e)| && |EntryBytes(e)| % 4 == 0
      && s[..6] == MAGIC && AllHex(s[6..110])
      && Field(s, 0) == e.ino && Field(s, 1) == e.mode && Field(s, 4) == e.nlink && Field(s, 6) == |e.data|
      && Field(s, 11) == n
      && s[110..110 + n] == e.name + "\0" && s[at..at + |e.data|] == e.data
  {
    hide Hex8;
    hide HexValue;
    hide FieldText;
    hide Fields;
    hide Pad;
    hide AllHex;
    hide Field;
    hide Aligned;
    var n := |e.name| + 1;
    var name, pad, end := e.name + "\0", Pad(110 + n), Pad(|e.data|);
    var tail := (name + pad) + (e.data + (end + rest));
    HeaderFields(e.name, e.mode, |e.data|, e.ino, e.nlink, tail);
    PadIsAligned(110 + n);
    PadIsAligned(|e.data|);
    var fixed := MAGIC + FieldText(Fields(e.mode, |e.data|, e.ino, e.nlink, n));
    Regroup(fixed, name, pad, e.data, end, rest);
    var s := EntryBytes(e) + rest;
    assert s == fixed + tail;
    Parts(s, fixed, name, pad, e.data, end + rest);
  }

  // The reader gets back what one call wrote, and stops right behind it,
  // unless the name has a NUL inside.
  lemma ReadBack(e: Entry, rest: string)
    requires Fits(e)
    ensures '\0' !in e.name ==> ReadEntry(EntryBytes(e) + rest) == Some((e, |EntryBytes(e)|))
    ensures '\0' in e.name ==> ReadEntry(EntryBytes(e) + rest) == None
    ensures |EntryBytes(e)| % 4 == 0
  {
    hide EntryBytes;
    hide AllHex;
    hide Field;
    hide Aligned;
    EntryLayout(e, rest);
    var s := EntryBytes(e) + rest;
    var n := |e.name| + 1;
    assert s[110..110 + n - 1] == e.name by {
      assert s[110..110 + n - 1] == s[110..110 + n][..n - 1];
    }
    forall j | 0 <= j < n - 1 ensures s[110..][j] == e.name[j] {
      assert s[110..][j] == s[110..110 + n][j];
    }
    assert s[110..][n - 1] == s[110..110 + n][n - 1] == '\0';
    if '\0' !in e.name {
      FindIs(s[110..], '\0', n - 1);
    }
  }

  // --- whole archives -----------------------------------------------------

  predicate Named(e: Entry) {
    '\0' !in e.name && e.name != TRAILER
  }

  // An archive reads back as the entries written if and only if no name has a
  // NUL inside or is the trailer's.
  lemma {:induction false} ImageReads(es: seq<Entry>, ino: nat)
    requires ino < 0x1_0000_0000 && forall e <- es :: Fits(e)
    ensures Read(Image(es) + Closing(ino)) == Some(es) <==> forall e <- es :: Named(e)
  {
    hide EntryBytes;
    hide ReadEntry;
    hide Closing;
    if es == [] {
      TrailerReads(ino);
    } else {
      assert Fits(es[0]);
      ImageReads(es[1..], ino);
      var rest := Image(es[1..]) + Closing(ino);
      ReadBack(es[0], rest);
      Assoc(EntryBytes(es[0]), Image(es[1..]), Closing(ino));
      var s := EntryBytes(es[0]) + rest;
      assert s[|EntryBytes(es[0])|..] == rest;
      assert es == [es[0]] + es[1..];
    }
  }

  lemma TrailerReads(ino: nat)
    requires ino < 0x1_0000_0000
    ensures Read(Image([]) + Closing(ino)) == Some([])
  {
    var e := Entry(TRAILER, 0, ino, 1, "");
    OneEntry("", e);
    ReadBack(e, "");
    assert EntryBytes(e) + "" == EntryBytes(e) == Closing(ino);
    assert Image([]) + Closing(ino) == Closing(ino);
  }

  // Every header of a written archive, the trailer's included, starts at a
  // multiple of four of the whole archive, and so does the archive's end.
  lemma HeadersAreAligned(es: seq<Entry>, i: nat, ino: nat)
    requires i <= |es| && ino < 0x1_0000_0000 && forall e <- es :: Fits(e)
    ensures var s, at := Image(es) + Closing(ino), |Image(es[..i])|;
      && at % 4 == 0 && |s| % 4 == 0 && at + 110 <= |s| && s[at..at + 6] == MAGIC
      && s[at..] == Image(es[i..]) + Closing(ino)
  {
    hide Image;
    hide Closing;
    var a, b := es[..i], es[i..];
    assert es == a + b;
    ImageAppend(a, b);
    ImageAligned(a);
    ImageAligned(es);
    Assoc(Image(a), Image(b), Closing(ino));
    TrailerLayout(ino);
    var s, rest := Image(es) + Closing(ino), Image(b) + Closing(ino);
    assert s[|Image(a)|..] == rest;
    assert |rest| >= 110 && rest[..6] == MAGIC by {
      if b != [] {
        FirstHeader(b, Closing(ino));
      } else {
        NothingWritten("");
        assert rest == Closing(ino);
      }
    }
    assert s[|Image(a)|..|Image(a)| + 6] == s[|Image(a)|..][..6];
  }

  lemma {:induction false} ImageAligned(es: seq<Entry>)
    requires forall e <- es :: Fits(e)
    ensures |Image(es)| % 4 == 0
  {
    hide EntryBytes;
    hide ReadEntry;
    hide Fits;
    if es != [] {
      ReadBack(es[0], "");
      ImageAligned(es[1..]);
    }
  }

  lemma FirstHeader(es: seq<Entry>, rest: string)
    requires es != [] && Fits(es[0])
    ensures |Image(es) + rest| >= 110 && (Image(es) + rest)[..6] == MAGIC
  {
    hide EntryBytes;
    hide AllHex;
    hide Field;
    EntryLayout(es[0], Image(es[1..]) + rest);
    Assoc(EntryBytes(es[0]), Image(es[1..]), rest);
  }

  lemma TrailerLayout(ino: nat)
    requires ino < 0x1_0000_0000
    ensures |Closing(ino)| >= 110 && |Closing(ino)| % 4 == 0 && Closing(ino)[..6] == MAGIC
  {
    hide AllHex;
    hide Field;
    hide Hex8;
    var e := Entry(TRAILER, 0, ino, 1, "");
    OneEntry("", e);
    EntryLayout(e, "");
    assert EntryBytes(e) + "" == EntryBytes(e) == Closing(ino);
  }

  // --- links --------------------------------------------------------------

  // Which call each entry comes from.
  function Owners(ops: seq<Op>, k: nat): seq<nat> {
    if ops == [] then [] else seq(|OpEntries(ops[0], 0)|, _ => k) + Owners(ops[1..], k + 1)
  }

  // Two entries share an inode number exactly when one call wrote both.
  lemma {:induction false} InodeIsOwner(ops: seq<Op>, k: nat, ino: nat, i: nat)
    requires i < |Entries(ops, ino + k)|
    ensures |Owners(ops, k)| == |Entries(ops, ino + k)|
    ensures Entries(ops, ino + k)[i].ino == ino + Owners(ops, k)[i] && k <= Owners(ops, k)[i]
  {
    var n := |OpEntries(ops[0], ino + k)|;
    assert |OpEntries(ops[0], 0)| == n;
    if i >= n {
      InodeIsOwner(ops[1..], k + 1, ino, i - n);
    } else {
      OwnersLength(ops, k, ino + k);
    }
  }

  lemma {:induction false} OwnersLength(ops: seq<Op>, k: nat, ino: nat)
    ensures |Owners(ops, k)| == |Entries(ops, ino)|
  {
    if ops != [] {
      OwnersLength(ops[1..], k + 1, ino + 1);
    }
  }

  predicate NoInode(es: seq<Entry>, ino: nat) {
    forall e <- es :: e.ino != ino
  }

  lemma {:induction false} ContentsApart(a: seq<Entry>, b: seq<Entry>, ino: nat)
    ensures NoInode(b, ino) ==> Contents(a + b, ino) == Contents(a, ino)
    ensures NoInode(a, ino) ==> Contents(a + b, ino) == Contents(b, ino)
    decreases |b|, |a|
  {
    if b == [] {
      assert a + b == a;
      if a != [] {
        ContentsApart(a[..|a| - 1], [], ino);
        assert a[..|a| - 1] + [] == a[..|a| - 1];
      }
    } else {
      ContentsApart(a, b[..|b| - 1], ino);
      assert (a + b)[..|a + b| - 1] == a + b[..|b| - 1];
    }
  }

  lemma ResolveApart(a: seq<Entry>, b: seq<Entry>)
    requires forall e <- a :: NoInode(b, e.ino)
    requires forall e <- b :: NoInode(a, e.ino)
    ensures Resolve(a + b) == Resolve(a) + Resolve(b)
  {
    hide Contents;
    forall i | 0 <= i < |a + b| ensures Resolve(a + b)[i] == (Resolve(a) + Resolve(b))[i] {
      ContentsApart(a, b, (a + b)[i].ino);
    }
  }

  lemma OpContents(op: Op, ino: nat)
    ensures OpEntries(op, ino) != [] ==> Contents(OpEntries(op, ino), ino) == if op.Dir? then "" else op.data
  {
    var es := OpEntries(op, ino);
    if es != [] {
      var rest := es[..|es| - 1];
      NoData(rest, ino);
    }
  }

  lemma {:induction false} NoData(es: seq<Entry>, ino: nat)
    requires forall e <- es :: e.data == ""
    ensures Contents(es, ino) == ""
  {
    if es != [] {
      NoData(es[..|es| - 1], ino);
    }
  }

  // The files a call asks for.
  function Asked(op: Op): seq<Member> {
    match op
    case Dir(name) => [Member(name, DIR_MODE as nat, "")]
    case File(name, data, perm) => [Member(name, (REGULAR | perm) as nat, data)]
    case Links(names, data, perm) =>
      seq(|names|, i requires 0 <= i < |names| => Member(names[i], (REGULAR | perm) as nat, data))
  }

  function AllAsked(ops: seq<Op>): seq<Member> {
    if ops == [] then [] else Asked(ops[0]) + AllAsked(ops[1..])
  }

  lemma OpResolves(op: Op, ino: nat)
    ensures Resolve(OpEntries(op, ino)) == Asked(op)
  {
    hide Contents;
    OpContents(op, ino);
    assert |Resolve(OpEntries(op, ino))| == |Asked(op)|;
    forall i | 0 <= i < |Asked(op)| ensures Resolve(OpEntries(op, ino))[i] == Asked(op)[i] {
    }
  }

  lemma LaterInodes(ops: seq<Op>, ino: nat)
    ensures forall e <- Entries(ops, ino) :: e.ino >= ino
  {
    hide Entries;
    hide Owners;
    var es := Entries(ops, ino);
    forall e | e in es ensures e.ino >= ino {
      var i :| 0 <= i < |es| && es[i] == e;
      InodeIsOwner(ops, 0, ino, i);
    }
  }

  lemma OpInodes(op: Op, ino: nat)
    ensures forall e <- OpEntries(op, ino) :: e.ino == ino
  {
  }

  lemma {:induction false} LinksResolve(ops: seq<Op>, ino: nat)
    ensures Resolve(Entries(ops, ino)) == AllAsked(ops)
  {
    hide OpEntries;
    hide Resolve;
    hide Asked;
    if ops == [] {
      NoneResolve();
    } else {
      LinksResolve(ops[1..], ino + 1);
      OpInodes(ops[0], ino);
      LaterInodes(ops[1..], ino + 1);
      ResolveApart(OpEntries(ops[0], ino), Entries(ops[1..], ino + 1));
      OpResolves(ops[0], ino);
    }
  }

  lemma NoneResolve()
    ensures Resolve([]) == []
  {
  }

  // What a call can ask of the format.
  predicate Storable(op: Op) {
    match op
    case Dir(name) => |name| < 0xffff_ffff
    case File(name, data, _) => |name| < 0xffff_ffff && |data| < 0x1_0000_0000
    case Links(names, data, _) =>
      && |names| < 0x1_0000_0000 && |data| < 0x1_0000_0000
      && forall n <- names :: |n| < 0xffff_ffff
  }

  lemma {:induction false} EntriesFit(ops: seq<Op>, ino: nat)
    requires ino + |ops| <= 0x1_0000_0000 && forall op <- ops :: Storable(op)
    ensures forall e <- Entries(ops, ino) :: Fits(e)
  {
    if ops != [] {
      EntriesFit(ops[1..], ino + 1);
      assert Storable(ops[0]);
    }
  }

  // Every archive of every sequence of calls: it reads back, with its links
  // resolved, as the files asked for, if no name has a NUL or is the trailer's.
  lemma ArchiveRoundTrip(ops: seq<Op>)
    requires |ops| + 1 < 0x1_0000_0000 && forall op <- ops :: Storable(op)
    ensures var es := Entries(ops, 1);
      && (Read(Image(es) + Closing(|ops| + 1)) == Some(es) <==> forall e <- es :: Named(e))
      && Resolve(es) == AllAsked(ops)
  {
    EntriesFit(ops, 1);
    ImageReads(Entries(ops, 1), |ops| + 1);
    LinksResolve(ops, 1);
  }
}
