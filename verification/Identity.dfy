/** Device identifiers: what an observation's instance name and TXT record say about who
    the device is (internal/registry/identity.go). Lower-casing beyond ASCII is Unicode's
    business, so every function takes the case folding `fold` as a parameter. */
module Identity {
  import opened Common

  type Txt = map<string, string>

  const PREFIX_MAC := "mac:"
  const PREFIX_SHORT_ID := "shortid:"
  const PREFIX_NAME := "name:"

  // ---- Characters -------------------------------------------------------------------

  predicate IsUpper(c: char) { 'A' <= c <= 'Z' }

  predicate IsHexDigit(c: char) { '0' <= c <= '9' || 'a' <= c <= 'f' }

  predicate IsHexAnyCase(c: char) { IsHexDigit(c) || 'A' <= c <= 'F' }

  function LowerChar(c: char): char {
    if IsUpper(c) then c - 'A' + 'a' else c
  }

  /** The folding agrees with ASCII lower-casing on ASCII characters. */
  ghost predicate FoldsAscii(fold: char -> char) {
    forall c: char :: c < 128 as char ==> fold(c) == LowerChar(c)
  }

  function MapChars(f: char -> char, s: string): (r: string)
    ensures |r| == |s|
    ensures forall i :: 0 <= i < |s| ==> r[i] == f(s[i])
  {
    seq(|s|, i requires 0 <= i < |s| => f(s[i]))
  }

  /** registry.lower: ASCII only, byte by byte. */
  function Lower(s: string): string {
    MapChars(LowerChar, s)
  }

  // ---- Substrings -------------------------------------------------------------------

  predicate HasPrefix(s: string, p: string) { p <= s }

  predicate HasSuffix(s: string, p: string) {
    |p| <= |s| && s[|s| - |p|..] == p
  }

  function TrimSuffix(s: string, p: string): string {
    if HasSuffix(s, p) then s[..|s| - |p|] else s
  }

  /** The first position of `p` in `s`, if any. */
  function Index(s: string, p: string): (r: Option<nat>)
    ensures r.Some? ==> r.value + |p| <= |s| && s[r.value..r.value + |p|] == p
  {
    if p <= s then Some(0)
    else if s == [] then None
    else match Index(s[1..], p)
         case None => None
         case Some(i) => Some(i + 1)
  }

  /** The last position of `c` in `s`, if any. */
  function LastIndex(s: string, c: char): (r: Option<nat>)
    ensures r.None? <==> c !in s
    ensures r.Some? ==> r.value < |s| && s[r.value] == c && c !in s[r.value + 1..]
  {
    if s == [] then None
    else if s[|s| - 1] == c then Some(|s| - 1)
    else LastIndex(s[..|s| - 1], c)
  }

  function HexOnly(s: string): (r: string)
    ensures forall c :: c in r ==> IsHexDigit(c)
  {
    if s == [] then ""
    else if IsHexDigit(s[0]) then [s[0]] + HexOnly(s[1..])
    else HexOnly(s[1..])
  }

  function Get(txt: Txt, key: string): string {
    if key in txt then txt[key] else ""
  }

  // ---- Identity ---------------------------------------------------------------------

  /** Strips any service and domain suffix, leaving the instance name. */
  function InstanceLabel(instance: string): string {
    var name := match Index(instance, "._")
                case Some(i) => if i > 0 then instance[..i] else instance
                case None => instance;
    TrimSuffix(TrimSuffix(name, "."), ".local")
  }

  /** Lower-cases and drops every non-hex character, surrounding space included. */
  function NormaliseMAC(fold: char -> char, s: string): string {
    HexOnly(MapChars(fold, s))
  }

  /** `s` ends in a dash and exactly `n` hex digits of either case. */
  predicate EndsInDashHex(s: string, n: nat) {
    |s| > n && s[|s| - n - 1] == '-' && forall i :: |s| - n <= i < |s| ==> IsHexAnyCase(s[i])
  }

  /** The hex tail a device's instance name carries: the full MAC, its last three bytes,
      or nothing. */
  function MacFromName(fold: char -> char, s: string): string {
    var name := InstanceLabel(s);
    if EndsInDashHex(name, 12) then MapChars(fold, name[|name| - 12..])
    else if EndsInDashHex(name, 6) then MapChars(fold, name[|name| - 6..])
    else ""
  }

  function DeriveID(fold: char -> char, instance: string, txt: Txt): (id: string)
    ensures id != "" && (IsMACID(id) ==> |id| == 16)
  {
    var mac := NormaliseMAC(fold, Get(txt, "mac"));
    var embedded := MacFromName(fold, Get(txt, "id"));
    var name := InstanceLabel(instance);
    var tail := MacFromName(fold, name);
    if |mac| == 12 then PREFIX_MAC + mac
    else if |embedded| == 12 then PREFIX_MAC + embedded
    else if |tail| == 12 then PREFIX_MAC + tail
    else if |tail| == 6 then
      assert (PREFIX_SHORT_ID + MapChars(fold, name))[0] == 's';
      PREFIX_SHORT_ID + MapChars(fold, name)
    else
      assert (PREFIX_NAME + MapChars(fold, name))[0] == 'n';
      PREFIX_NAME + MapChars(fold, name)
  }

  predicate IsMACID(id: string) { HasPrefix(id, PREFIX_MAC) }

  predicate IsShortID(id: string) { HasPrefix(id, PREFIX_SHORT_ID) }

  /** `mac:` and twelve lower-case hex digits. */
  predicate IsFullMACID(id: string) {
    IsMACID(id) && |id| == 16 && forall i :: 4 <= i < 16 ==> IsHexDigit(id[i])
  }

  function MACOfID(id: string): string {
    if IsMACID(id) then id[4..] else ""
  }

  lemma FoldedHex(fold: char -> char, s: string)
    requires FoldsAscii(fold) && forall i :: 0 <= i < |s| ==> IsHexAnyCase(s[i])
    ensures forall i :: 0 <= i < |s| ==> IsHexDigit(MapChars(fold, s)[i])
    ensures MapChars(fold, s) == Lower(s)
  {
  }

  /** DeriveID yields one of three forms: `mac:` with twelve hex digits; `shortid:` with a
      folded name ending in a dash and six hex digits; or `name:` with a folded name. */
  lemma DerivedForms(fold: char -> char, instance: string, txt: Txt)
    requires FoldsAscii(fold)
    ensures var id := DeriveID(fold, instance, txt);
            var name := InstanceLabel(instance);
            || IsFullMACID(id)
            || (IsShortID(id) && id == PREFIX_SHORT_ID + MapChars(fold, name)
                && EndsInDashHex(InstanceLabel(name), 6))
            || id == PREFIX_NAME + MapChars(fold, name)
    ensures IsMACID(DeriveID(fold, instance, txt)) <==> IsFullMACID(DeriveID(fold, instance, txt))
  {
    var id := DeriveID(fold, instance, txt);
    forall s: string | |MacFromName(fold, s)| == 12
      ensures forall i :: 0 <= i < 12 ==> IsHexDigit(MacFromName(fold, s)[i])
    {
      var name := InstanceLabel(s);
      if EndsInDashHex(name, 12) { FoldedHex(fold, name[|name| - 12..]); }
    }
    var mac := NormaliseMAC(fold, Get(txt, "mac"));
    assert forall i :: 0 <= i < |mac| ==> mac[i] in mac;
    assert !(PREFIX_MAC <= PREFIX_NAME + MapChars(fold, InstanceLabel(instance))) by {
      assert (PREFIX_NAME + MapChars(fold, InstanceLabel(instance)))[0] == 'n';
    }
    assert !(PREFIX_MAC <= PREFIX_SHORT_ID + MapChars(fold, InstanceLabel(instance))) by {
      assert (PREFIX_SHORT_ID + MapChars(fold, InstanceLabel(instance)))[0] == 's';
    }
  }

  lemma LastIndexIs(s: string, c: char, i: nat)
    requires i < |s| && s[i] == c && c !in s[i + 1..]
    ensures LastIndex(s, c) == Some(i)
  {
    if i < |s| - 1 {
      assert s[|s| - 1] in s[i + 1..];
      assert s[..|s| - 1][i + 1..] <= s[i + 1..];
      LastIndexIs(s[..|s| - 1], c, i);
    }
  }

  /** A name known only by its last three MAC bytes keeps them, folded, after the last
      dash of its identifier. */
  lemma ShortIDSuffix(fold: char -> char, name: string)
    requires FoldsAscii(fold) && EndsInDashHex(name, 6)
    ensures var id := PREFIX_SHORT_ID + MapChars(fold, name);
            var hex := Lower(name[|name| - 6..]);
            && LastIndex(id, '-') == Some(|id| - 7)
            && id[|id| - 6..] == hex
            && HasSuffix(id, "-" + hex)
  {
    var id := PREFIX_SHORT_ID + MapChars(fold, name);
    var hex := Lower(name[|name| - 6..]);
    FoldedHex(fold, name[|name| - 6..]);
    assert id[|id| - 6..] == hex;
    assert id[|id| - 7] == '-';
    assert id[|id| - 7..] == "-" + hex;
    assert '-' !in id[|id| - 6..] by {
      assert forall i :: 0 <= i < 6 ==> IsHexDigit(hex[i]);
    }
    LastIndexIs(id, '-', |id| - 7);
  }

  /** What a short identifier and a full one sharing the same three MAC bytes look like. */
  ghost predicate ShareTail(short: string, mac: string, hex: string) {
    && IsShortID(short) && !IsMACID(short)
    && |short| >= 7 && LastIndex(short, '-') == Some(|short| - 7)
    && short[|short| - 6..] == hex && HasSuffix(short, "-" + hex)
    && IsMACID(mac) && !IsShortID(mac)
    && |mac| == 16 && MACOfID(mac)[6..] == hex && HasSuffix(mac, hex)
  }

  lemma ShortIDForm(fold: char -> char, instance: string, txt: Txt)
    requires IsShortID(DeriveID(fold, instance, txt))
    ensures DeriveID(fold, instance, txt) == PREFIX_SHORT_ID + MapChars(fold, InstanceLabel(instance))
  {
    hide MapChars, InstanceLabel, MacFromName, NormaliseMAC;
    var name := MapChars(fold, InstanceLabel(instance));
    assert (PREFIX_NAME + name)[0] == 'n' && (PREFIX_SHORT_ID + name)[0] == 's';
    assert DeriveID(fold, instance, txt)[0] == 's';
  }

  lemma ShareTailFrom(fold: char -> char, name: string, mac: string)
    requires FoldsAscii(fold) && EndsInDashHex(name, 6) && IsMACID(mac) && |mac| == 16
    requires HasSuffix(mac, Lower(name[|name| - 6..]))
    ensures ShareTail(PREFIX_SHORT_ID + MapChars(fold, name), mac, Lower(name[|name| - 6..]))
  {
    ShortIDSuffix(fold, name);
    MACTail(mac, Lower(name[|name| - 6..]));
    assert (PREFIX_SHORT_ID + MapChars(fold, name))[0] == 's';
    hide MapChars, LastIndex, Lower, MACOfID;
    TailShared(PREFIX_SHORT_ID + MapChars(fold, name), mac, Lower(name[|name| - 6..]));
  }

  lemma MACTail(mac: string, hex: string)
    requires IsMACID(mac) && |mac| == 16 && HasSuffix(mac, hex) && |hex| == 6
    ensures MACOfID(mac)[6..] == hex && !IsShortID(mac)
  {
    assert mac[4..][6..] == mac[10..];
    assert mac[0] == 'm' && PREFIX_SHORT_ID[0] == 's';
  }

  lemma TailShared(short: string, mac: string, hex: string)
    requires PREFIX_SHORT_ID <= short && short[0] == 's' && |short| >= 7 && LastIndex(short, '-') == Some(|short| - 7)
    requires short[|short| - 6..] == hex && HasSuffix(short, "-" + hex)
    requires IsMACID(mac) && !IsShortID(mac) && |mac| == 16 && MACOfID(mac)[6..] == hex && HasSuffix(mac, hex)
    ensures ShareTail(short, mac, hex)
  {
    hide LastIndex, MACOfID, HasSuffix;
    assert PREFIX_MAC[0] == 'm';
  }

  lemma DerivedShareTail(fold: char -> char, instance: string, txt: Txt, mac: string)
    requires FoldsAscii(fold)
    requires IsShortID(DeriveID(fold, instance, txt)) && EndsInDashHex(InstanceLabel(instance), 6)
    requires IsMACID(mac) && |mac| == 16
    requires HasSuffix(mac, Lower(InstanceLabel(instance)[|InstanceLabel(instance)| - 6..]))
    ensures ShareTail(DeriveID(fold, instance, txt), mac, Lower(InstanceLabel(instance)[|InstanceLabel(instance)| - 6..]))
  {
    hide DeriveID, InstanceLabel, ShareTail, MapChars, Lower, HasSuffix;
    ShortIDForm(fold, instance, txt);
    ShareTailFrom(fold, InstanceLabel(instance), mac);
  }

  // ---- Identities, told from how names and records are written ------------------------------

  lemma {:induction false} HexOnlyAppend(s: string, t: string)
    ensures HexOnly(s + t) == HexOnly(s) + HexOnly(t)
  {
    if s == "" {
      assert s + t == t;
    } else {
      HexOnlyAppend(s[1..], t);
      assert (s + t)[1..] == s[1..] + t && (s + t)[0] == s[0];
    }
  }

  /** A MAC is read character by character: hex digits are kept, in lower case, and whatever
      else ASCII stands between them is dropped. */
  lemma MACByCharacter(fold: char -> char, s: string, c: char, t: string)
    requires FoldsAscii(fold) && c < 128 as char
    ensures NormaliseMAC(fold, "") == ""
    ensures NormaliseMAC(fold, s + [c] + t) == NormaliseMAC(fold, s) + NormaliseMAC(fold, t)
            || '0' <= c <= '9' || 'a' <= c <= 'f' || 'A' <= c <= 'F'
    ensures '0' <= c <= '9' || 'a' <= c <= 'f' ==>
              NormaliseMAC(fold, s + [c] + t) == NormaliseMAC(fold, s) + [c] + NormaliseMAC(fold, t)
    ensures 'A' <= c <= 'F' ==>
              NormaliseMAC(fold, s + [c] + t) == NormaliseMAC(fold, s) + [c - 'A' + 'a'] + NormaliseMAC(fold, t)
  {
    MapAppend(fold, s + [c], t);
    MapAppend(fold, s, [c]);
    HexOnlyAppend(MapChars(fold, s) + MapChars(fold, [c]), MapChars(fold, t));
    HexOnlyAppend(MapChars(fold, s), MapChars(fold, [c]));
    var f := fold(c);
    assert MapChars(fold, [c]) == [f] && [f][1..] == "";
    assert HexOnly([f]) == if IsHexDigit(f) then [f] else "";
    hide MapChars;
  }

  lemma MapAppend(fold: char -> char, s: string, t: string)
    ensures MapChars(fold, s + t) == MapChars(fold, s) + MapChars(fold, t)
  {
  }

  /** Every character of the text is a hex digit, of either case. */
  predicate AllHex(s: string) { forall i :: 0 <= i < |s| ==> IsHexAnyCase(s[i]) }

  lemma EndsInDashHexIs(stem: string, hex: string)
    requires AllHex(hex)
    ensures EndsInDashHex(stem + "-" + hex, |hex|)
  {
  }

  /** Six digits after the dash are not twelve. */
  lemma ShorterTail(stem: string, hex: string)
    requires AllHex(hex) && |hex| == 6
    ensures !EndsInDashHex(stem + "-" + hex, 12)
  {
    var s := stem + "-" + hex;
    assert |s| > 12 ==> s[|s| - 7] == '-';
  }

  /** A name is cut at its service type. */
  lemma {:induction false} IndexAt(s: string, p: string, i: nat)
    requires p != "" && i + |p| <= |s| && s[i..i + |p|] == p && p[0] !in s[..i]
    ensures Index(s, p) == Some(i)
  {
    if i > 0 {
      assert s[0] in s[..i];
      assert s[1..][..i - 1] == s[..i][1..];
      assert s[1..][i - 1..i - 1 + |p|] == s[i..i + |p|];
      IndexAt(s[1..], p, i - 1);
    }
  }

  /** A name free of dots is its own label, before a service type and on its own. */
  lemma LabelIs(name: string, rest: string)
    requires name != "" && '.' !in name
    ensures InstanceLabel(name + "._" + rest) == name && InstanceLabel(name) == name
  {
    var instance := name + "._" + rest;
    assert instance[|name|..|name| + 2] == "._" && instance[..|name|] == name;
    IndexAt(instance, "._", |name|);
    NoDot(name);
    Untrimmed(name);
  }

  lemma NoDot(name: string)
    requires '.' !in name
    ensures Index(name, "._").None?
  {
    if Index(name, "._").Some? { DotWithin(name, Index(name, "._").value); }
  }

  lemma DotWithin(name: string, i: nat)
    requires i + 2 <= |name| && name[i..i + 2] == "._"
    ensures '.' in name
  {
    assert name[i] == name[i..i + 2][0];
  }

  lemma Untrimmed(name: string)
    requires '.' !in name
    ensures TrimSuffix(TrimSuffix(name, "."), ".local") == name
  {
    SuffixWithin(name, ".");
    SuffixWithin(name, ".local");
  }

  lemma SuffixWithin(s: string, suffix: string)
    requires suffix != ""
    ensures HasSuffix(s, suffix) ==> suffix[0] in s
  {
    if HasSuffix(s, suffix) { assert s[|s| - |suffix|..][0] == suffix[0]; }
  }

  /** The bytes a name carries are what stands after its last dash, if that is twelve or six
      hex digits. */
  lemma TailIs(fold: char -> char, stem: string, hex: string, rest: string)
    requires AllHex(hex) && '.' !in stem && (|hex| == 12 || |hex| == 6)
    ensures var name := stem + "-" + hex;
            && InstanceLabel(name + "._" + rest) == name && InstanceLabel(name) == name
            && MacFromName(fold, name) == MapChars(fold, hex)
  {
    var name := stem + "-" + hex;
    assert '.' !in name by {
      if '.' in name {
        var i :| 0 <= i < |name| && name[i] == '.';
        DotInHex(stem, hex, i);
      }
    }
    LabelIs(name, rest);
    EndsInDashHexIs(stem, hex);
    if |hex| == 6 { ShorterTail(stem, hex); }
    assert name[|name| - |hex|..] == hex;
    hide InstanceLabel, EndsInDashHex, MapChars;
  }

  lemma DotInHex(stem: string, hex: string, i: nat)
    requires AllHex(hex) && '.' !in stem && i < |stem| + 1 + |hex|
    ensures (stem + "-" + hex)[i] != '.'
  {
    var name := stem + "-" + hex;
    if i < |stem| {
      assert name[i] in stem;
    } else if i > |stem| {
      assert name[i] == hex[i - |stem| - 1];
    }
  }

  lemma NoEvidence(fold: char -> char)
    ensures NormaliseMAC(fold, "") == "" && MacFromName(fold, "") == ""
  {
  }

  /** The strongest evidence decides. A MAC of twelve digits in the TXT record beats everything;
      then the one an "id" entry ends in; then, of a node announced as stem-hex, the twelve
      digits its name ends in; six of them make a short identifier of the whole name. */
  lemma EvidenceDecides(fold: char -> char, stem: string, hex: string, rest: string, txt: Txt, other: string, digits: string)
    requires AllHex(hex) && '.' !in stem && (|hex| == 12 || |hex| == 6)
    requires AllHex(digits) && |digits| == 12 && '.' !in other
    ensures var id, mac := DeriveID(fold, stem + "-" + hex + "._" + rest, txt), NormaliseMAC(fold, Get(txt, "mac"));
            && (|mac| == 12 ==> id == "mac:" + mac)
            && (|mac| != 12 && Get(txt, "id") == other + "-" + digits ==> id == "mac:" + MapChars(fold, digits))
            && (|mac| != 12 && Get(txt, "id") == "" && |hex| == 12 ==> id == "mac:" + MapChars(fold, hex))
            && (|mac| != 12 && Get(txt, "id") == "" && |hex| == 6 ==> id == "shortid:" + MapChars(fold, stem + "-" + hex))
  {
    TailIs(fold, stem, hex, rest);
    TailIs(fold, other, digits, "");
    NoEvidence(fold);
    hide InstanceLabel, MacFromName, NormaliseMAC, MapChars, AllHex;
  }

  /** And a name without such a tail, in want of any other evidence, stands for itself. */
  lemma NameDecides(fold: char -> char, name: string, rest: string, txt: Txt)
    requires name != "" && '.' !in name && !EndsInDashHex(name, 12) && !EndsInDashHex(name, 6)
    requires |NormaliseMAC(fold, Get(txt, "mac"))| != 12 && Get(txt, "id") == ""
    ensures DeriveID(fold, name + "._" + rest, txt) == "name:" + MapChars(fold, name)
  {
    LabelIs(name, rest);
    NoEvidence(fold);
    hide InstanceLabel, NormaliseMAC, MapChars, EndsInDashHex;
  }
}
