/**
 The text a draw record commits to. SHA-256 is an uninterpreted function `sha`.
 */
module DrawHash {
  import opened Mulberry32

  function DrawText(lotteryId: string, seed: string, timestamp: string): string {
    lotteryId + ":" + seed + ":" + timestamp
  }

  function GenerateDrawHash(sha: string -> Digest, lotteryId: string, seed: string, timestamp: string): Digest {
    sha(DrawText(lotteryId, seed, timestamp))
  }

  function FirstColon(text: string): (i: nat)
    requires ':' in text
  {
    if text[0] == ':' then 0 else 1 + FirstColon(text[1..])
  }

  lemma {:induction false} FirstColonAfterPrefix(a: string, rest: string)
    requires ':' !in a
    ensures FirstColon(a + ":" + rest) == |a|
  {
    if a == "" {
      assert a + ":" + rest == ":" + rest;
    } else {
      assert (a + ":" + rest)[1..] == a[1..] + ":" + rest;
      FirstColonAfterPrefix(a[1..], rest);
    }
  }

  /** Two splits of one text at a colon, with no colon in either left part, are the same split. */
  lemma SplitAtColonIsUnique(a: string, b: string, rest1: string, rest2: string)
    requires ':' !in a && ':' !in b
    requires a + ":" + rest1 == b + ":" + rest2
    ensures a == b && rest1 == rest2
  {
    FirstColonAfterPrefix(a, rest1);
    FirstColonAfterPrefix(b, rest2);
    var text := a + ":" + rest1;
    assert a == text[..|a|] == b;
    assert rest1 == text[|a| + 1..] == rest2;
  }

  /** The text determines its three fields; the timestamp may contain colons, and does. */
  lemma DrawTextIsInjective(id1: string, seed1: string, time1: string, id2: string, seed2: string, time2: string)
    requires ':' !in id1 && ':' !in id2 && ':' !in seed1 && ':' !in seed2
    ensures DrawText(id1, seed1, time1) == DrawText(id2, seed2, time2)
      <==> id1 == id2 && seed1 == seed2 && time1 == time2
  {
    if DrawText(id1, seed1, time1) == DrawText(id2, seed2, time2) {
      assert DrawText(id1, seed1, time1) == id1 + ":" + (seed1 + ":" + time1);
      assert DrawText(id2, seed2, time2) == id2 + ":" + (seed2 + ":" + time2);
      SplitAtColonIsUnique(id1, id2, seed1 + ":" + time1, seed2 + ":" + time2);
      SplitAtColonIsUnique(seed1, seed2, time1, time2);
    }
  }

  /** Without that condition on the seed two different records hash the same text. */
  lemma ColonInSeedIsAmbiguous()
    ensures DrawText("L", "a:b", "c") == DrawText("L", "a", "b:c")
  {
    assert DrawText("L", "a:b", "c") == "L:a:b:c";
    assert DrawText("L", "a", "b:c") == "L:a:b:c";
  }
}
