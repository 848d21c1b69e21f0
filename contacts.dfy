/** The contact-list expressions of the controller: looking an entry up by
    code, dropping every entry with a code, and the snapshot appended on add. */
module Contacts {
  import opened WalletTypes

  /** `contacts.find(c => c.code === code)`: the first entry with the code. */
  function FindContact(cs: seq<ContactRef>, code: string): (r: Option<ContactRef>)
    ensures r.None? <==> !HasCode(cs, code)
    ensures r.Some? ==> r.value in cs && r.value.code == code
    ensures r.Some? ==> exists k :: 0 <= k < |cs| && cs[k] == r.value && forall j :: 0 <= j < k ==> cs[j].code != code
  {
    if cs == [] then None
    else if cs[0].code == code then
      Some(cs[0])
    else
      var r := FindContact(cs[1..], code);
      assert forall i :: 1 <= i < |cs| ==> cs[i] == cs[1..][i - 1];
      assert HasCode(cs, code) ==> HasCode(cs[1..], code);
      if r.Some? then
        var k :| 0 <= k < |cs[1..]| && cs[1..][k] == r.value && forall j :: 0 <= j < k ==> cs[1..][j].code != code;
        assert cs[k + 1] == r.value && forall j :: 0 <= j < k + 1 ==> cs[j].code != code;
        r
      else r
  }

  /** `contacts.filter(c => c.code !== code)`. */
  function WithoutCode(cs: seq<ContactRef>, code: string): (r: seq<ContactRef>)
    ensures !HasCode(r, code)
    ensures forall c :: c in r <==> c in cs && c.code != code
    ensures !HasCode(cs, code) ==> r == cs
    ensures DistinctCodes(cs) ==> DistinctCodes(r)
    ensures |r| <= |cs|
  {
    if cs == [] then []
    else
      var head, tail := cs[0], cs[1..];
      var rest := WithoutCode(tail, code);
      assert cs == [head] + tail;
      ConsHasCode(head, tail, code);
      ConsDistinct(head, tail);
      if head.code != code then
        ConsHasCode(head, rest, code);
        ConsDistinct(head, rest);
        SubHasCode(rest, tail, head.code);
        [head] + rest
      else rest
  }

  /** A list with one entry in front carries that entry's code and the rest's. */
  lemma ConsHasCode(c: ContactRef, rest: seq<ContactRef>, code: string)
    ensures HasCode([c] + rest, code) <==> c.code == code || HasCode(rest, code)
  {
    var cs := [c] + rest;
    if c.code == code {
      assert cs[0].code == code;
    }
    if HasCode(rest, code) {
      var i :| 0 <= i < |rest| && rest[i].code == code;
      assert cs[i + 1].code == code;
    }
    if HasCode(cs, code) && c.code != code {
      var i :| 0 <= i < |cs| && cs[i].code == code;
      assert rest[i - 1].code == code;
    }
  }

  /** A list with one entry in front repeats no code iff the rest repeats
      none and does not carry the front entry's. */
  lemma ConsDistinct(c: ContactRef, rest: seq<ContactRef>)
    ensures DistinctCodes([c] + rest) <==> DistinctCodes(rest) && !HasCode(rest, c.code)
  {
    var cs := [c] + rest;
    if DistinctCodes(cs) {
      forall i, j | 0 <= i < j < |rest| ensures rest[i].code != rest[j].code {
        assert cs[i + 1] == rest[i] && cs[j + 1] == rest[j];
      }
      forall i | 0 <= i < |rest| ensures rest[i].code != c.code {
        assert cs[0] == c && cs[i + 1] == rest[i];
      }
    }
    if DistinctCodes(rest) && !HasCode(rest, c.code) {
      forall i, j | 0 <= i < j < |cs| ensures cs[i].code != cs[j].code {
        if i > 0 {
          assert cs[i] == rest[i - 1] && cs[j] == rest[j - 1];
        } else {
          assert cs[j] == rest[j - 1];
        }
      }
    }
  }

  /** A list whose entries all occur in another carries only codes the other
      carries. */
  lemma SubHasCode(a: seq<ContactRef>, b: seq<ContactRef>, code: string)
    requires forall c :: c in a ==> c in b
    ensures HasCode(a, code) ==> HasCode(b, code)
  {
    if HasCode(a, code) {
      var i :| 0 <= i < |a| && a[i].code == code;
      assert a[i] in b;
    }
  }

  /** Filtering keeps the relative order of what it keeps. */
  lemma {:induction false} WithoutCodeAppend(a: seq<ContactRef>, b: seq<ContactRef>, code: string)
    ensures WithoutCode(a + b, code) == WithoutCode(a, code) + WithoutCode(b, code)
  {
    if a == [] {
      assert a + b == b;
    } else {
      assert (a + b)[1..] == a[1..] + b;
      WithoutCodeAppend(a[1..], b, code);
    }
  }

  /** When codes are distinct, removing a present code removes exactly the
      one entry that carries it and keeps the rest as they were. */
  lemma {:induction false} WithoutCodeRemovesOne(cs: seq<ContactRef>, code: string)
    requires DistinctCodes(cs) && HasCode(cs, code)
    ensures exists k :: 0 <= k < |cs| && cs[k].code == code && WithoutCode(cs, code) == cs[..k] + cs[k + 1..]
    ensures |WithoutCode(cs, code)| == |cs| - 1
  {
    var tail := cs[1..];
    TailKeepsDistinct(cs);
    if cs[0].code == code {
      assert WithoutCode(cs, code) == WithoutCode(tail, code) == tail;
      assert cs[..0] + cs[1..] == tail;
    } else {
      assert HasCode(tail, code) by {
        var j :| 0 <= j < |cs| && cs[j].code == code;
        assert tail[j - 1].code == code;
      }
      WithoutCodeRemovesOne(tail, code);
      var k :| 0 <= k < |tail| && tail[k].code == code && WithoutCode(tail, code) == tail[..k] + tail[k + 1..];
      DropAfterHead(cs, k);
      assert cs[k + 1].code == code;
    }
  }

  lemma TailKeepsDistinct(cs: seq<ContactRef>)
    requires DistinctCodes(cs) && cs != []
    ensures DistinctCodes(cs[1..])
    ensures !HasCode(cs[1..], cs[0].code)
  {
  }

  lemma DropAfterHead(cs: seq<ContactRef>, k: nat)
    requires k < |cs| - 1
    ensures [cs[0]] + (cs[1..][..k] + cs[1..][k + 1..]) == cs[..k + 1] + cs[k + 2..]
  {
  }

  /** The entry addContact appends: a copy of the contact wallet's identity,
      display fields and status. */
  function Snapshot(id: WalletId, w: Wallet): ContactRef
  {
    ContactRef(id, w.code, w.userId, w.userName, w.userImage, w.status)
  }
}
