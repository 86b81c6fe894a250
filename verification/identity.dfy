/**
 * ComputeID (backend/common.go): the first 12 characters of the lower-case hex
 * SHA-1 digest of the arguments joined with no separator. SHA-1 itself is not
 * modelled: it is the parameter `sha1`, any function whose every result is a
 * 40-character lower-case hex string.
 */
module Identity {

  const HexDigits: string := "0123456789abcdef"

  predicate IsLowerHex(s: string)
  {
    forall i :: 0 <= i < |s| ==> s[i] in HexDigits
  }

  predicate IsHexDigest(d: string)
  {
    |d| == 40 && IsLowerHex(d)
  }

  const ZeroDigest: string := "0000000000000000000000000000000000000000"

  /** A hex-digest function: SHA-1 as `fmt.Sprintf("%x", sha1.Sum(...))` renders it. */
  type Digest = f: string -> string | forall s :: IsHexDigest(f(s))
    witness (s: string) => ZeroDigest

  /** strings.Join(parts, "") */
  function Join(parts: seq<string>): string
  {
    if |parts| == 0 then "" else parts[0] + Join(parts[1..])
  }

  /** The length of a short id. */
  const IdLength: nat := 12

  function ComputeID(sha1: Digest, parts: seq<string>): (r: string)
    ensures |r| == IdLength
    ensures IsLowerHex(r)
    ensures r <= sha1(Join(parts))
  {
    sha1(Join(parts))[..IdLength]
  }

  lemma {:induction false} JoinAppend(p: seq<string>, q: seq<string>)
    ensures Join(p + q) == Join(p) + Join(q)
  {
    if |p| == 0 {
      assert p + q == q;
    } else {
      assert (p + q)[1..] == p[1..] + q;
      JoinAppend(p[1..], q);
    }
  }

  lemma {:induction false} JoinSplit(pre: seq<string>, a: string, b: string, post: seq<string>)
    ensures Join(pre + [a, b] + post) == Join(pre + [a + b] + post)
  {
    JoinAppend(pre, [a, b] + post);
    JoinAppend(pre, [a + b] + post);
    assert ([a, b] + post)[1..] == [b] + post;
    assert ([b] + post)[1..] == post;
    assert ([a + b] + post)[1..] == post;
    assert pre + [a, b] + post == pre + ([a, b] + post);
    assert pre + [a + b] + post == pre + ([a + b] + post);
  }

  /** Splitting one argument into two (or merging two into one) never changes the id. */
  lemma SplitArgument(sha1: Digest, pre: seq<string>, a: string, b: string, post: seq<string>)
    ensures ComputeID(sha1, pre + [a, b] + post) == ComputeID(sha1, pre + [a + b] + post)
  {
    JoinSplit(pre, a, b, post);
  }

  lemma JoinPair(a: string, b: string)
    ensures Join([a]) == a
    ensures Join([a, b]) == a + b
  {
    assert [a, b][1..] == [b];
    assert Join([b]) == b + Join([]);
  }

  /**
   * Without a separator the split between arguments is lost: ("aws", region, name) and
   * ("aws", region + name, "") get the same id, e.g. region "us-east-1" with name "prod"
   * against region "us-east-1prod" with an empty name.
   */
  lemma NoSeparatorCollision(sha1: Digest, region: string, name: string)
    ensures ComputeID(sha1, ["aws", region, name]) == ComputeID(sha1, ["aws", region + name, ""])
  {
    JoinPair(region, name);
    JoinPair(region + name, "");
    JoinAppend(["aws"], [region, name]);
    JoinAppend(["aws"], [region + name, ""]);
    assert ["aws"] + [region, name] == ["aws", region, name];
    assert ["aws"] + [region + name, ""] == ["aws", region + name, ""];
  }

  /**
   * The test vectors of backend/common_test.go, taken as facts about the digest:
   * the id is case-sensitive and two arguments hash as their concatenation.
   */
  lemma TestVectors(sha1: Digest)
    requires sha1("testString")[..IdLength] == "956265657d0b"
    requires sha1("teststring")[..IdLength] == "b8473b86d4c2"
    requires sha1("teststring1" + "teststring2")[..IdLength] == "ab8675367360"
    ensures ComputeID(sha1, ["testString"]) == "956265657d0b"
    ensures ComputeID(sha1, ["testString"]) != ComputeID(sha1, ["teststring"])
    ensures ComputeID(sha1, ["teststring1", "teststring2"]) == "ab8675367360"
  {
    JoinPair("testString", "");
    JoinPair("teststring", "");
    JoinPair("teststring1", "teststring2");
  }
}
