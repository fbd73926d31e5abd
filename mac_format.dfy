/**
 * `formatMac`: a raw MAC string cut into six two-character groups joined by ':'.
 * Each group is `mac.split('').slice(2 * i, 2 * i + 2).join('')`, so a short input
 * gives short or empty trailing groups and characters from index 12 on are dropped.
 */
module MacFormat {
  import opened JsText

  const GroupCount: nat := 6
  const GroupWidth: nat := 2
  /** Number of characters of the raw string that `formatMac` can show. */
  const DigitCount: nat := 12
  const Separator: char := ':'

  /** The i-th group: `mac.split('').slice(i * 2, i * 2 + 2).join('')`. */
  function Group(mac: string, i: nat): string
  {
    Join(Slice(Chars(mac), i * GroupWidth, i * GroupWidth + GroupWidth), "")
  }

  /** `times(6).map(i => Group(mac, i))`. */
  function Groups(mac: string): seq<string>
  {
    seq(GroupCount, i requires 0 <= i < GroupCount => Group(mac, i))
  }

  function FormatMac(mac: string): string
  {
    Join(Groups(mac), [Separator])
  }

  /** Group i is the (clamped) substring of `mac` at offsets 2i up to 2i + 2. */
  lemma GroupIsSubstring(mac: string, i: nat)
    ensures Group(mac, i) == mac[Min(2 * i, |mac|)..Min(2 * i + 2, |mac|)]
    ensures |Group(mac, i)| <= 2
    ensures 2 * i + 2 <= |mac| ==> |Group(mac, i)| == 2
  {
    SliceChars(mac, 2 * i, 2 * i + 2);
  }

  /** The groups from n on, laid end to end, are the digits from offset 2n up to 12. */
  lemma {:induction false} GroupsFrom(mac: string, n: nat)
    requires n <= GroupCount
    ensures Join(Groups(mac)[n..], "") == mac[Min(2 * n, |mac|)..Min(DigitCount, |mac|)]
    decreases GroupCount - n
  {
    var gs := Groups(mac)[n..];
    if n < GroupCount {
      assert gs[1..] == Groups(mac)[n + 1..];
      GroupsFrom(mac, n + 1);
      GroupIsSubstring(mac, n);
      JoinEmptySeparator(gs);
    }
  }

  /**
   * Removing the separators gives back the first min(|mac|, 12) characters of `mac`,
   * in order: formatting drops characters only past index 11.
   */
  lemma FormatMacDigits(mac: string)
    ensures |Groups(mac)| == GroupCount
    ensures forall i :: 0 <= i < GroupCount ==> Groups(mac)[i] == mac[Min(2 * i, |mac|)..Min(2 * i + 2, |mac|)]
    ensures FormatMac(mac) == Join(Groups(mac), ":")
    ensures Join(Groups(mac), "") == mac[..Min(DigitCount, |mac|)]
  {
    forall i | 0 <= i < GroupCount
      ensures Groups(mac)[i] == mac[Min(2 * i, |mac|)..Min(2 * i + 2, |mac|)]
    {
      GroupIsSubstring(mac, i);
    }
    GroupsFrom(mac, 0);
    assert Groups(mac)[0..] == Groups(mac);
  }

  /** Five separators are always added, whatever the input's length. */
  lemma FormatMacLength(mac: string)
    ensures |FormatMac(mac)| == Min(DigitCount, |mac|) + GroupCount - 1
    ensures |FormatMac(mac)| >= GroupCount - 1
  {
    FormatMacDigits(mac);
    JoinLength(Groups(mac), [Separator]);
  }

  /** The output holds the input's own colons among its first 12 characters plus exactly five more. */
  lemma FormatMacSeparators(mac: string)
    ensures Count(FormatMac(mac), Separator) == Count(mac[..Min(DigitCount, |mac|)], Separator) + GroupCount - 1
  {
    FormatMacDigits(mac);
    JoinCount(Groups(mac), Separator);
  }

  /** A colon-free raw string, such as a hex MAC, yields exactly five colons. */
  lemma FormatMacFiveColons(mac: string)
    requires forall i :: 0 <= i < |mac| ==> mac[i] != Separator
    ensures Count(FormatMac(mac), Separator) == 5
  {
    FormatMacSeparators(mac);
    NoOccurrence(mac[..Min(DigitCount, |mac|)], Separator);
  }

  lemma {:induction false} NoOccurrence(s: string, c: char)
    requires forall i :: 0 <= i < |s| ==> s[i] != c
    ensures Count(s, c) == 0
  {
    if |s| > 0 {
      NoOccurrence(s[1..], c);
    }
  }

  /**
   * The shape of a formatted full MAC: two characters, then ':' and two more
   * characters, repeated; 17 characters in all.
   */
  predicate IsGrouped(r: string)
    decreases |r|
  {
    |r| == 2 || (|r| > 3 && r[2] == Separator && IsGrouped(r[3..]))
  }

  predicate IsFormattedMac(r: string)
  {
    |r| == 17 && IsGrouped(r)
  }

  /** The inverse of formatting a full MAC: drop the character after every pair. */
  function Unformat(r: string): string
    decreases |r|
  {
    if |r| <= 2 then r else r[..2] + Unformat(r[3..])
  }

  /** Joining two-character groups with ':' gives a grouped string whose pairs are the groups. */
  lemma {:induction false} JoinPairs(gs: seq<string>)
    requires |gs| > 0
    requires forall i :: 0 <= i < |gs| ==> |gs[i]| == 2
    ensures IsGrouped(Join(gs, ":"))
    ensures |Join(gs, ":")| == 3 * |gs| - 1
    ensures Unformat(Join(gs, ":")) == Join(gs, "")
  {
    if |gs| > 1 {
      JoinPairs(gs[1..]);
      JoinEmptySeparator(gs);
      var r := Join(gs, ":");
      assert r == gs[0] + ":" + Join(gs[1..], ":");
      assert r[2] == ':';
      assert r[..2] == gs[0];
      assert r[3..] == Join(gs[1..], ":");
    }
  }

  /** Two-character parts laid end to end: part k sits at offsets 2k and 2k + 1. */
  lemma {:induction false} JoinPairsAt(gs: seq<string>, k: nat)
    requires forall i :: 0 <= i < |gs| ==> |gs[i]| == 2
    requires k < |gs|
    ensures |Join(gs, "")| == 2 * |gs|
    ensures Join(gs, "")[2 * k..2 * k + 2] == gs[k]
  {
    JoinEmptySeparator(gs);
    if |gs| > 1 {
      JoinPairsAt(gs[1..], if k > 0 then k - 1 else 0);
    } else {
      assert gs[1..] == [];
    }
  }

  /** A grouped string is its own pairs joined with ':'. */
  function Pairs(r: string): (gs: seq<string>)
    requires IsGrouped(r)
    ensures |gs| > 0 && forall i :: 0 <= i < |gs| ==> |gs[i]| == 2
    decreases |r|
  {
    if |r| == 2 then [r] else [r[..2]] + Pairs(r[3..])
  }

  lemma {:induction false} PairsJoin(r: string)
    requires IsGrouped(r)
    ensures Join(Pairs(r), ":") == r
    ensures |Pairs(r)| == (|r| + 1) / 3
    decreases |r|
  {
    if |r| > 2 {
      PairsJoin(r[3..]);
      var gs := Pairs(r);
      assert gs[1..] == Pairs(r[3..]);
      assert r == r[..2] + ":" + r[3..];
    }
  }

  /** Formatting a 12-character string and unformatting it is the identity. */
  lemma FormatMacRoundTrip(mac: string)
    requires |mac| == DigitCount
    ensures IsFormattedMac(FormatMac(mac))
    ensures Unformat(FormatMac(mac)) == mac
  {
    FormatMacDigits(mac);
    forall i | 0 <= i < GroupCount ensures |Groups(mac)[i]| == 2 {
      GroupIsSubstring(mac, i);
    }
    JoinPairs(Groups(mac));
    assert mac[..DigitCount] == mac;
  }

  /** Every formatted MAC is the format of exactly the 12 characters unformatting gives. */
  lemma UnformatRoundTrip(r: string)
    requires IsFormattedMac(r)
    ensures |Unformat(r)| == DigitCount
    ensures FormatMac(Unformat(r)) == r
  {
    var gs := Pairs(r);
    PairsJoin(r);
    JoinPairs(gs);
    var m := Unformat(r);
    assert m == Join(gs, "");
    JoinPairsAt(gs, 0);
    FormatMacDigits(m);
    forall i | 0 <= i < GroupCount ensures Groups(m)[i] == gs[i] {
      JoinPairsAt(gs, i);
    }
    assert Groups(m) == gs;
  }

  /** The full-MAC case of the round trip is a bijection: formatting is injective on 12-character strings. */
  lemma FormatMacInjective(a: string, b: string)
    requires |a| == DigitCount && |b| == DigitCount
    ensures FormatMac(a) == FormatMac(b) <==> a == b
  {
    FormatMacRoundTrip(a);
    FormatMacRoundTrip(b);
  }

  /** The six groups of "aabbccddeeff". */
  lemma GroupsExample()
    ensures Groups("aabbccddeeff") == ["aa", "bb", "cc", "dd", "ee", "ff"]
  {
    var mac := "aabbccddeeff";
    var gs := ["aa", "bb", "cc", "dd", "ee", "ff"];
    forall i | 0 <= i < GroupCount ensures Groups(mac)[i] == gs[i] {
      GroupIsSubstring(mac, i);
      assert mac[2 * i..2 * i + 2] == [mac[2 * i], mac[2 * i + 1]];
    }
  }

  /** A twelve-digit hex MAC comes out in the familiar colon notation. */
  lemma FormatMacExample()
    ensures FormatMac("aabbccddeeff") == "aa:bb:cc:dd:ee:ff"
  {
    GroupsExample();
    calc {
      FormatMac("aabbccddeeff");
      Join(["aa", "bb", "cc", "dd", "ee", "ff"], ":");
      { JoinStep(["aa", "bb", "cc", "dd", "ee", "ff"], ":"); }
      "aa:" + Join(["bb", "cc", "dd", "ee", "ff"], ":");
      { JoinStep(["bb", "cc", "dd", "ee", "ff"], ":"); }
      "aa:" + ("bb:" + Join(["cc", "dd", "ee", "ff"], ":"));
      { JoinStep(["cc", "dd", "ee", "ff"], ":"); }
      "aa:" + ("bb:" + ("cc:" + Join(["dd", "ee", "ff"], ":")));
      { JoinStep(["dd", "ee", "ff"], ":"); }
      "aa:" + ("bb:" + ("cc:" + ("dd:" + Join(["ee", "ff"], ":"))));
      { JoinStep(["ee", "ff"], ":"); }
      "aa:" + ("bb:" + ("cc:" + ("dd:" + ("ee:" + Join(["ff"], ":")))));
      "aa:bb:cc:dd:ee:ff";
    }
  }
}
