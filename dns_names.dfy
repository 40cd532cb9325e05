/** Domain names as the resolver returns them (dnspython's Name): a sequence
    of labels, an absolute name ending in the empty root label. */
module DnsNames {

  /** rds.amazonaws.com. */
  const RdsDomain: seq<string> := ["rds", "amazonaws", "com", ""]

  function LowerChar(c: char): char {
    if 'A' <= c <= 'Z' then (c as int + 32) as char else c
  }

  /** ASCII case folding, as DNS label comparison does. */
  function Lower(s: string): (r: string)
    ensures |r| == |s| && forall i :: 0 <= i < |s| ==> r[i] == LowerChar(s[i])
  {
    seq(|s|, i requires 0 <= i < |s| => LowerChar(s[i]))
  }

  /** Name.is_subdomain: `name` equals `domain` or lies below it, label by
      label from the root, ignoring ASCII case. */
  predicate IsSubdomain(name: seq<string>, domain: seq<string>) {
    |domain| <= |name| &&
    forall i :: 0 <= i < |domain| ==> Lower(name[|name| - |domain| + i]) == Lower(domain[i])
  }

  /** Name.to_text: the labels joined by dots (an absolute name thus ends
      in a dot). */
  function ToText(labels: seq<string>): (r: string)
    decreases |labels|
  {
    if |labels| == 0 then ""
    else if |labels| == 1 then labels[0]
    else labels[0] + "." + ToText(labels[1..])
  }

  /** str.rstrip('.'): the longest prefix of `s` not ending in a dot, such
      that only dots follow it. */
  function StripTrailingDots(s: string): (r: string)
    ensures |r| <= |s| && s[..|r|] == r
    ensures forall i :: |r| <= i < |s| ==> s[i] == '.'
    ensures r == [] || r[|r| - 1] != '.'
    decreases |s|
  {
    if |s| > 0 && s[|s| - 1] == '.' then StripTrailingDots(s[..|s| - 1]) else s
  }

  /** The endpoint address the finder keeps for a canonical name. */
  function AddressOf(canonical: seq<string>): string {
    StripTrailingDots(ToText(canonical))
  }

  lemma {:induction false} ToTextAppend(xs: seq<string>, ys: seq<string>)
    requires |xs| > 0 && |ys| > 0
    ensures ToText(xs + ys) == ToText(xs) + "." + ToText(ys)
    decreases |xs|
  {
    if |xs| == 1 {
      assert (xs + ys)[1..] == ys;
    } else {
      assert (xs + ys)[1..] == xs[1..] + ys;
      ToTextAppend(xs[1..], ys);
    }
  }

  lemma LowerOfLowercase(s: string)
    requires forall i :: 0 <= i < |s| ==> !('A' <= s[i] <= 'Z')
    ensures Lower(s) == s
  {
  }

  lemma LowerAppend(a: string, b: string)
    ensures Lower(a + b) == Lower(a) + Lower(b)
  {
  }

  lemma RdsLabelsText(t: seq<string>)
    requires |t| == 4 && t[3] == ""
    ensures ToText(t) == t[0] + "." + t[1] + "." + t[2] + "."
  {
    assert ToText(t[3..]) == "";
    assert t[2..][1..] == t[3..];
    assert ToText(t[2..]) == t[2] + ".";
    assert t[1..][1..] == t[2..];
    assert ToText(t[1..]) == t[1] + "." + (t[2] + ".");
  }

  lemma RdsLabelsLower(t: seq<string>)
    requires |t| == 4 && forall i :: 0 <= i < 4 ==> Lower(t[i]) == RdsDomain[i]
    ensures Lower(t[0] + "." + t[1] + "." + t[2] + ".") == "rds.amazonaws.com."
  {
    var dot := ".";
    assert Lower(dot) == dot;
    LowerAppend(t[0], dot);
    LowerAppend(t[0] + dot, t[1]);
    LowerAppend(t[0] + dot + t[1], dot);
    LowerAppend(t[0] + dot + t[1] + dot, t[2]);
    LowerAppend(t[0] + dot + t[1] + dot + t[2], dot);
  }

  /** The last four labels of such a name spell ".rds.amazonaws.com."
      once folded. */
  lemma RdsTailText(tail: seq<string>)
    requires |tail| == 4 && tail[3] == ""
    requires Lower(tail[0] + "." + tail[1] + "." + tail[2] + ".") == "rds.amazonaws.com."
    ensures Lower("." + ToText(tail)) == ".rds.amazonaws.com."
  {
    RdsLabelsText(tail);
    LowerAppend(".", ToText(tail));
    assert Lower(".") == ".";
  }

  /** The text of a name ending in rds.amazonaws.com. (in any case) is,
      folded to lower case, the text of its leading labels followed by
      ".rds.amazonaws.com.". */
  lemma {:induction false} SubdomainText(name: seq<string>)
    requires IsSubdomain(name, RdsDomain) && |name| > |RdsDomain|
    ensures Lower(ToText(name)) == Lower(ToText(name[..|name| - 4])) + ".rds.amazonaws.com."
  {
    var n := |name|;
    var head, tail := name[..n - 4], name[n - 4..];
    assert name == head + tail;
    ToTextAppend(head, tail);
    forall i | 0 <= i < 4
      ensures Lower(tail[i]) == RdsDomain[i]
    {
      assert tail[i] == name[n - |RdsDomain| + i];
      LowerOfLowercase(RdsDomain[i]);
    }
    assert |tail[3]| == |Lower(tail[3])| == 0;
    RdsLabelsLower(tail);
    RdsTailText(tail);
    LowerAppend(ToText(head), "." + ToText(tail));
  }

  /** The address kept for an accepted canonical name is
      its text without the root dot, and lies in rds.amazonaws.com. */
  lemma {:induction false} AcceptedAddress(name: seq<string>)
    requires IsSubdomain(name, RdsDomain) && |name| > |RdsDomain|
    ensures AddressOf(name) + "." == ToText(name)
    ensures Lower(AddressOf(name)) == Lower(ToText(name[..|name| - 4])) + ".rds.amazonaws.com"
  {
    var t := ToText(name);
    var suffix := ".rds.amazonaws.com.";
    SubdomainText(name);
    var x := Lower(ToText(name[..|name| - 4]));
    assert Lower(t) == x + suffix;
    var k := |t|;
    assert k >= 2;
    assert LowerChar(t[k - 1]) == Lower(t)[k - 1] == '.';
    assert LowerChar(t[k - 2]) == Lower(t)[k - 2] == 'm';
    assert t[k - 1] == '.' && t[k - 2] != '.';
    assert StripTrailingDots(t[..k - 1]) == t[..k - 1];
    assert AddressOf(name) == t[..k - 1];
    assert t[..k - 1] + "." == t;
    assert Lower(t[..k - 1]) == Lower(t)[..k - 1];
    assert (x + suffix)[..k - 1] == x + ".rds.amazonaws.com";
  }

  /** The apex rds.amazonaws.com. (in any case) is a subdomain of itself:
      its address is its text without the root dot, "rds.amazonaws.com"
      once folded. */
  lemma {:induction false} AcceptedApex(name: seq<string>)
    requires IsSubdomain(name, RdsDomain) && |name| == |RdsDomain|
    ensures AddressOf(name) + "." == ToText(name)
    ensures Lower(AddressOf(name)) == "rds.amazonaws.com"
  {
    forall i | 0 <= i < 4
      ensures Lower(name[i]) == RdsDomain[i]
    {
      assert name[i] == name[|name| - |RdsDomain| + i];
      LowerOfLowercase(RdsDomain[i]);
    }
    assert |name[3]| == |Lower(name[3])| == 0;
    RdsLabelsText(name);
    RdsLabelsLower(name);
    var t := ToText(name);
    var k := |t|;
    assert Lower(t) == "rds.amazonaws.com.";
    assert LowerChar(t[k - 1]) == Lower(t)[k - 1] == '.';
    assert LowerChar(t[k - 2]) == Lower(t)[k - 2] == 'm';
    assert t[k - 1] == '.' && t[k - 2] != '.';
    assert StripTrailingDots(t[..k - 1]) == t[..k - 1];
    assert AddressOf(name) == t[..k - 1];
    assert t[..k - 1] + "." == t;
    assert Lower(t[..k - 1]) == Lower(t)[..k - 1];
  }
}
