/** The body of a virtual channel table (section 6.3 of ATSC A/65:2013) and the text made of it. */
module Vct {
  import opened Bytes

  /** One channel: the short name's bytes, the 20-bit channel number and the modulation byte. */
  datatype VctEntry = VctEntry(name: seq<u8>, number: nat, modulation: u8) {
    function Major(): nat { number / 1024 }
    function Minor(): nat { number % 1024 }
  }

  /**
   `Overrun` is a table whose loops leave the section. What the program reads from there on is not modelled: up to
   `more` further lines of any content.
   */
  datatype VctText = NoText | Lines(entries: seq<VctEntry>) | Overrun(entries: seq<VctEntry>, more: nat)

  /** Bytes of an entry before its descriptors. */
  function EntrySize(nameLen: nat): nat { nameLen + 18 }

  function EntryAt(s: seq<u8>, pos: nat, nameLen: nat): VctEntry
    requires pos + EntrySize(nameLen) <= |s|
  {
    var p := pos + nameLen;
    VctEntry(s[pos..p], BE24(s[p], s[p + 1], s[p + 2]) % 0x10_0000, s[p + 3])
  }

  function DescriptorBytesAt(s: seq<u8>, pos: nat, nameLen: nat): nat
    requires pos + EntrySize(nameLen) <= |s|
  {
    BE16(s[pos + nameLen + 16], s[pos + nameLen + 17]) % 0x400
  }

  /** The walk over a descriptor list of `left` bytes reads only the section and never wraps its count. */
  predicate DescriptorsStay(s: seq<u8>, pos: nat, left: nat)
    decreases left
  {
    left < 2 ||
    (pos + 2 <= |s| && s[pos + 1] <= left - 2 && DescriptorsStay(s, pos + 2 + s[pos + 1], left - 2 - s[pos + 1]))
  }

  /** `count` entries from `pos` on, after those already read. */
  function Entries(s: seq<u8>, pos: nat, count: nat, nameLen: nat, done: seq<VctEntry>): VctText
    decreases count
  {
    if count == 0 then Lines(done)
    else if pos + EntrySize(nameLen) > |s| then Overrun(done, count)
    else
      var left := DescriptorBytesAt(s, pos, nameLen);
      var next := pos + EntrySize(nameLen);
      var now := done + [EntryAt(s, pos, nameLen)];
      if !DescriptorsStay(s, next, left) then Overrun(now, count - 1)
      else if next + left > |s| then Lines(now) // more sections would be needed
      else Entries(s, next + left, count - 1, nameLen, now)
  }

  function Parse(s: seq<u8>, pos: nat, nameLen: nat): VctText
    requires pos < |s|
  {
    Entries(s, pos + 1, s[pos], nameLen, [])
  }

  // ---------- The text ----------

  function Clip(line: string): (r: string)
    ensures |r| <= 255
  {
    if |line| <= 255 then line else line[..255]
  }

  /** One line a channel: what the formatter makes of it, cut at 255 characters, and a newline. */
  function Text(fmt: VctEntry -> string, es: seq<VctEntry>): string {
    if es == [] then "" else Text(fmt, es[..|es| - 1]) + Clip(fmt(es[|es| - 1])) + "\n"
  }

  /** The line of an entry: the first 255 characters the formatter gives, and a newline. */
  function Line(fmt: VctEntry -> string, e: VctEntry): string {
    (if |fmt(e)| > 255 then fmt(e)[..255] else fmt(e)) + "\n"
  }

  /** Line `i` of the text is that of entry `i`, behind the lines of the entries before it. */
  lemma {:induction false} LineOf(fmt: VctEntry -> string, es: seq<VctEntry>, i: nat)
    requires i < |es|
    ensures Text(fmt, es[..i]) + Line(fmt, es[i]) <= Text(fmt, es)
    ensures i == |es| - 1 ==> Text(fmt, es) == Text(fmt, es[..i]) + Line(fmt, es[i])
  {
    var n := |es| - 1;
    assert Text(fmt, es) == Text(fmt, es[..n]) + Line(fmt, es[n]);
    if i < n {
      LineOf(fmt, es[..n], i);
      assert es[..n][..i] == es[..i];
    }
  }

  lemma {:induction false} AlwaysLines(s: seq<u8>, pos: nat, count: nat, nameLen: nat, done: seq<VctEntry>)
    ensures !Entries(s, pos, count, nameLen, done).NoText?
    decreases count
  {
    if count > 0 && pos + EntrySize(nameLen) <= |s| {
      var left := DescriptorBytesAt(s, pos, nameLen);
      var next := pos + EntrySize(nameLen);
      AlwaysLines(s, next + left, count - 1, nameLen, done + [EntryAt(s, pos, nameLen)]);
    }
  }

  lemma AlwaysText(s: seq<u8>, pos: nat, nameLen: nat)
    requires pos < |s|
    ensures Parse(s, pos, nameLen) != NoText
  {
    AlwaysLines(s, pos + 1, s[pos], nameLen, []);
  }

  /** Lines whose content is not modelled. */
  function Unknown(lines: seq<string>): string {
    if lines == [] then "" else Unknown(lines[..|lines| - 1]) + Clip(lines[|lines| - 1]) + "\n"
  }

  /** How many lines a table has at most. */
  function LineLimit(v: VctText): nat {
    match v
    case NoText => 0
    case Lines(entries) => |entries|
    case Overrun(entries, more) => |entries| + more
  }

  /** Lines that the program may have added after an overrun. */
  predicate Possible(v: VctText, beyond: seq<string>) {
    |beyond| <= if v.Overrun? then v.more else 0
  }

  /** The text of a table, with the lines after an overrun. */
  function WholeText(fmt: VctEntry -> string, v: VctText, beyond: seq<string>): string {
    if v.NoText? then "" else Text(fmt, v.entries) + Unknown(beyond)
  }

  /** A table has a count byte, and a line at most 256 characters. */
  const MAX_TEXT := 255 * 256

  lemma {:induction false} TextLength(fmt: VctEntry -> string, es: seq<VctEntry>)
    ensures |Text(fmt, es)| <= 256 * |es|
  {
    if es != [] {
      TextLength(fmt, es[..|es| - 1]);
    }
  }

  lemma {:induction false} UnknownLength(lines: seq<string>)
    ensures |Unknown(lines)| <= 256 * |lines|
  {
    if lines != [] {
      UnknownLength(lines[..|lines| - 1]);
    }
  }

  /** A table of at most 255 lines, whatever they are, fits the program's 65536-byte buffer with room to spare. */
  lemma WholeTextLength(fmt: VctEntry -> string, v: VctText, beyond: seq<string>)
    requires LineLimit(v) <= 255 && Possible(v, beyond)
    ensures |WholeText(fmt, v, beyond)| <= MAX_TEXT
  {
    hide Text, Unknown;
    if !v.NoText? {
      TextLength(fmt, v.entries);
      UnknownLength(beyond);
    }
  }

  lemma {:induction false} EntryCount(s: seq<u8>, pos: nat, count: nat, nameLen: nat, done: seq<VctEntry>)
    ensures LineLimit(Entries(s, pos, count, nameLen, done)) <= |done| + count
    decreases count
  {
    if count > 0 && pos + EntrySize(nameLen) <= |s| {
      var left := DescriptorBytesAt(s, pos, nameLen);
      var next := pos + EntrySize(nameLen);
      EntryCount(s, next + left, count - 1, nameLen, done + [EntryAt(s, pos, nameLen)]);
    }
  }

  /** No table has more than 255 lines, well formed or not. */
  lemma TextFits(s: seq<u8>, pos: nat, nameLen: nat)
    requires pos < |s|
    ensures LineLimit(Parse(s, pos, nameLen)) <= s[pos] <= 255
  {
    EntryCount(s, pos + 1, s[pos], nameLen, []);
  }

  // ---------- Printing a table, and reading it back ----------

  datatype Descriptor = Descriptor(tag: u8, data: seq<u8>)

  /** A channel as a broadcaster describes it; `fields` are the twelve bytes the program skips. */
  datatype Channel = Channel(
    name: seq<u8>, major: nat, minor: nat, modulation: u8, fields: seq<u8>, descriptors: seq<Descriptor>)

  /** The entry says what the broadcaster said of the channel. */
  predicate Describes(e: VctEntry, c: Channel) {
    e.name == c.name && e.Major() == c.major && e.Minor() == c.minor && e.modulation == c.modulation
  }

  predicate DescriptorsOk(ds: seq<Descriptor>) {
    forall d | d in ds :: |d.data| < 256
  }

  function DescriptorList(ds: seq<Descriptor>): seq<u8>
    requires DescriptorsOk(ds)
  {
    if ds == [] then [] else [ds[0].tag, |ds[0].data|] + ds[0].data + DescriptorList(ds[1..])
  }

  predicate ChannelOk(c: Channel, nameLen: nat) {
    && |c.name| == nameLen && c.major < 1024 && c.minor < 1024 && |c.fields| == 12
    && DescriptorsOk(c.descriptors) && |DescriptorList(c.descriptors)| < 0x400
  }

  /** Four reserved bits and two numbers of ten bits. */
  function NumberBytes(major: nat, minor: nat): (s: seq<u8>)
    requires major < 1024 && minor < 1024
    ensures |s| == 3
  {
    [0xf0 + major / 64, major % 64 * 4 + minor / 256, minor % 256]
  }

  /** The part of a channel of fixed size, for `left` descriptor bytes. */
  function FixedBytes(c: Channel, nameLen: nat, left: nat): (s: seq<u8>)
    requires ChannelOk(c, nameLen) && left < 0x400
    ensures |s| == EntrySize(nameLen)
  {
    c.name + NumberBytes(c.major, c.minor) + [c.modulation] + c.fields + [0xfc + left / 256, left % 256]
  }

  function ChannelBytes(c: Channel, nameLen: nat): seq<u8>
    requires ChannelOk(c, nameLen)
  {
    FixedBytes(c, nameLen, |DescriptorList(c.descriptors)|) + DescriptorList(c.descriptors)
  }

  function ChannelsBytes(cs: seq<Channel>, nameLen: nat): seq<u8>
    requires forall c | c in cs :: ChannelOk(c, nameLen)
  {
    if cs == [] then [] else ChannelBytes(cs[0], nameLen) + ChannelsBytes(cs[1..], nameLen)
  }

  predicate AllDescribed(es: seq<VctEntry>, cs: seq<Channel>) {
    |es| == |cs| && forall i | 0 <= i < |cs| :: Describes(es[i], cs[i])
  }

  lemma OneDescriptorStays(s: seq<u8>, pos: nat, left: nat, d: Descriptor)
    requires |d.data| < 256 && |d.data| + 2 <= left && pos + left <= |s|
    requires s[pos + 1] == |d.data|
    ensures DescriptorsStay(s, pos, left) == DescriptorsStay(s, pos + 2 + |d.data|, left - 2 - |d.data|)
  {}

  /** The walk over well-formed descriptors stays inside their list, also with one odd byte, `spare`, at its end. */
  lemma {:induction false} ListStays(pre: seq<u8>, ds: seq<Descriptor>, post: seq<u8>, spare: nat)
    requires DescriptorsOk(ds) && spare <= 1 && spare <= |post|
    ensures DescriptorsStay(pre + DescriptorList(ds) + post, |pre|, |DescriptorList(ds)| + spare)
    decreases |ds|
  {
    if ds != [] {
      hide DescriptorsStay;
      var head := [ds[0].tag, |ds[0].data|] + ds[0].data;
      var rest := DescriptorList(ds[1..]);
      assert DescriptorList(ds) == head + rest;
      ListStays(pre + head, ds[1..], post, spare);
      ListParts(pre, head, rest, post);
      OneDescriptorStays(pre + (head + rest) + post, |pre|, |head + rest| + spare, ds[0]);
    }
  }

  /**
   After well-formed descriptors, one that says it is longer than what is left of the list
   takes the walk out of it.
   */
  lemma {:induction false} StrayDescriptor(
    pre: seq<u8>, ds: seq<Descriptor>, tag: u8, len: u8, post: seq<u8>, left: nat)
    requires DescriptorsOk(ds) && left >= 2 && len > left - 2
    ensures var list := DescriptorList(ds);
            |list| + left <= |list + [tag, len] + post| ==>
              !DescriptorsStay(pre + (list + [tag, len] + post), |pre|, |list| + left)
    decreases |ds|
  {
    if |DescriptorList(ds)| + left <= |DescriptorList(ds) + [tag, len] + post| {
      if ds == [] {
        var list := DescriptorList(ds);
        assert list == [];
        var s := pre + (list + [tag, len] + post);
        assert s[|pre| + 1] == len;
      } else {
        hide DescriptorsStay;
        var head := [ds[0].tag, |ds[0].data|] + ds[0].data;
        var rest := DescriptorList(ds[1..]);
        assert DescriptorList(ds) == head + rest;
        StrayDescriptor(pre + head, ds[1..], tag, len, post, left);
        var tail := rest + [tag, len] + post;
        assert head + rest + [tag, len] + post == head + tail;
        assert pre + (head + tail) == (pre + head) + tail;
        ListParts(pre, head, tail, []);
        assert pre + (head + tail) + [] == pre + (head + tail);
        OneDescriptorStays(pre + (head + tail), |pre|, |head + rest| + left, ds[0]);
      }
    }
  }

  /**
   One entry with its descriptors: it is lost if it does not fit, kept if only its descriptors run out of their list,
   and the last one if they run past the section; otherwise the next entry is behind them.
   */
  lemma OneEntry(s: seq<u8>, pos: nat, count: nat, nameLen: nat, done: seq<VctEntry>)
    requires count > 0
    ensures var v, fixed := Entries(s, pos, count, nameLen, done), pos + nameLen + 18;
            if fixed > |s| then v == Overrun(done, count) else
              var left, now := BE16(s[fixed - 2], s[fixed - 1]) % 0x400, done + [EntryAt(s, pos, nameLen)];
              && (!DescriptorsStay(s, fixed, left) ==> v == Overrun(now, count - 1))
              && (DescriptorsStay(s, fixed, left) && fixed + left > |s| ==> v == Lines(now))
              && (DescriptorsStay(s, fixed, left) && fixed + left <= |s| ==>
                    v == Entries(s, fixed + left, count - 1, nameLen, now))
  {}

  lemma ListParts(pre: seq<u8>, head: seq<u8>, rest: seq<u8>, post: seq<u8>)
    requires |head| >= 2
    ensures pre + (head + rest) + post == (pre + head) + rest + post
    ensures (pre + (head + rest) + post)[|pre| + 1] == head[1]
  {}

  lemma FixedReadBack(pre: seq<u8>, c: Channel, nameLen: nat, left: nat, post: seq<u8>)
    requires ChannelOk(c, nameLen) && left < 0x400
    ensures var s := pre + FixedBytes(c, nameLen, left) + post;
            Describes(EntryAt(s, |pre|, nameLen), c) && DescriptorBytesAt(s, |pre|, nameLen) == left
  {
    hide Describes, BE24, NumberBytes;
    var f := FixedBytes(c, nameLen, left);
    var s := pre + f + post;
    var p := |pre| + nameLen;
    assert s[|pre|..p] == c.name;
    var b := NumberBytes(c.major, c.minor);
    assert s[p] == f[nameLen] == b[0] && s[p + 1] == f[nameLen + 1] == b[1] && s[p + 2] == f[nameLen + 2] == b[2];
    assert s[p + 3] == f[nameLen + 3] == c.modulation;
    assert s[p + 16] == f[nameLen + 16] && s[p + 17] == f[nameLen + 17];
    NumberReadBack(c, EntryAt(s, |pre|, nameLen));
  }

  lemma NumberReadBack(c: Channel, e: VctEntry)
    requires c.major < 1024 && c.minor < 1024 && e.name == c.name && e.modulation == c.modulation
    requires var b := NumberBytes(c.major, c.minor); e.number == BE24(b[0], b[1], b[2]) % 0x10_0000
    ensures Describes(e, c)
  {
    var b := NumberBytes(c.major, c.minor);
    var n := 1024 * c.major + c.minor;
    assert c.major == 64 * (c.major / 64) + c.major % 64;
    assert c.minor == 256 * (c.minor / 256) + c.minor % 256;
    assert BE24(b[0], b[1], b[2]) == 0xf0_0000 + n;
    assert n < 0x10_0000;
    assert n / 1024 == c.major && n % 1024 == c.minor;
  }

  lemma ChannelReadBack(pre: seq<u8>, c: Channel, nameLen: nat, post: seq<u8>, count: nat, done: seq<VctEntry>)
    returns (e: VctEntry)
    requires ChannelOk(c, nameLen) && count > 0
    ensures var s := pre + ChannelBytes(c, nameLen) + post;
            Entries(s, |pre|, count, nameLen, done)
            == Entries(s, |pre + ChannelBytes(c, nameLen)|, count - 1, nameLen, done + [e])
    ensures Describes(e, c)
  {
    hide DescriptorsStay, DescriptorList, FixedBytes, Describes;
    var list := DescriptorList(c.descriptors);
    var fixed := FixedBytes(c, nameLen, |list|);
    var s := pre + ChannelBytes(c, nameLen) + post;
    assert s == pre + fixed + (list + post);
    FixedReadBack(pre, c, nameLen, |list|, list + post);
    e := EntryAt(s, |pre|, nameLen);
    assert s == (pre + fixed) + list + post;
    ListStays(pre + fixed, c.descriptors, post, 0);
  }

  /** The reader emits one entry a channel, in order, with the name, numbers and modulation that were encoded. */
  lemma {:induction false} ChannelsReadBack(
    pre: seq<u8>, cs: seq<Channel>, nameLen: nat, post: seq<u8>, done: seq<VctEntry>)
    returns (es: seq<VctEntry>)
    requires forall c | c in cs :: ChannelOk(c, nameLen)
    ensures Entries(pre + ChannelsBytes(cs, nameLen) + post, |pre|, |cs|, nameLen, done) == Lines(done + es)
    ensures AllDescribed(es, cs)
    decreases |cs|
  {
    hide Entries, ChannelBytes, Describes;
    if cs == [] {
      es := [];
      assert done + es == done;
      NoEntries(pre + ChannelsBytes(cs, nameLen) + post, |pre|, nameLen, done);
    } else {
      var one, rest := ChannelBytes(cs[0], nameLen), ChannelsBytes(cs[1..], nameLen);
      var s := pre + ChannelsBytes(cs, nameLen) + post;
      assert s == pre + one + (rest + post);
      var e := ChannelReadBack(pre, cs[0], nameLen, rest + post, |cs|, done);
      assert s == (pre + one) + rest + post;
      var more := ChannelsReadBack(pre + one, cs[1..], nameLen, post, done + [e]);
      es := [e] + more;
      assert done + [e] + more == done + es;
    }
  }

  lemma NoEntries(s: seq<u8>, pos: nat, nameLen: nat, done: seq<VctEntry>)
    ensures Entries(s, pos, 0, nameLen, done) == Lines(done)
  {}
}
