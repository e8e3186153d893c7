/**
  The list operations behind the scanned-code history: the duplicate test of
  `handleScannedCode`, the filter of `deleteCode`, and the invariant that no two
  records share a `content`.

  Contents are compared as Swift's `String ==` compares them: by Unicode
  canonical equivalence, not code point by code point. Two strings are equal
  when their canonical forms are; `canon` is that normalisation (for instance,
  to NFD), and is left as a parameter.
 */
module History {
  import opened Records

  /**
    `scannedCodes.contains(where: { $0.content == code })`: some record's content
    is canonically equivalent to `content` (case-sensitive; no other folding).
   */
  function ContainsContent(canon: string -> string, codes: seq<ScannedCode>, content: string): (r: bool)
    ensures r <==> exists i :: 0 <= i < |codes| && canon(codes[i].content) == canon(content)
  {
    if codes == [] then false
    else if canon(codes[0].content) == canon(content) then true
    else
      var r := ContainsContent(canon, codes[1..], content);
      assert forall i :: 1 <= i < |codes| ==> codes[i] == codes[1..][i - 1];
      r
  }

  /**
    The store's invariant: no two records have equal (canonically equivalent)
    contents. Equivalently, every record's content was new when it was appended,
    which is how `handleScannedCode` builds the list.
   */
  predicate DistinctContents(canon: string -> string, codes: seq<ScannedCode>)
    ensures DistinctContents(canon, codes) <==>
      forall k :: 0 <= k < |codes| ==> !ContainsContent(canon, codes[..k], codes[k].content)
  {
    var r := forall i, j :: 0 <= i < j < |codes| ==> canon(codes[i].content) != canon(codes[j].content);
    assert forall k, i :: 0 <= i < k < |codes| ==> codes[..k][i] == codes[i];
    r
  }

  /** No two records have the same identifier (what fresh UUIDs give in practice). */
  predicate DistinctIds(codes: seq<ScannedCode>)
  {
    forall i, j :: 0 <= i < j < |codes| ==> codes[i].id != codes[j].id
  }

  /**
    `scannedCodes.removeAll { $0.id == id }`: drops every record with that
    identifier and keeps the others in their original order.
   */
  function RemoveId(codes: seq<ScannedCode>, id: Uuid): (r: seq<ScannedCode>)
    ensures |r| <= |codes|
    ensures NoneHasId(r, id)
  {
    if codes == [] then []
    else if codes[0].id == id then RemoveId(codes[1..], id)
    else [codes[0]] + RemoveId(codes[1..], id)
  }

  /** No record of `codes` carries identifier `id`. */
  predicate NoneHasId(codes: seq<ScannedCode>, id: Uuid)
  {
    forall i :: 0 <= i < |codes| ==> codes[i].id != id
  }

  /** The survivors of a deletion are exactly the records with another identifier. */
  lemma {:induction false} RemoveIdMembers(codes: seq<ScannedCode>, id: Uuid, c: ScannedCode)
    ensures c in RemoveId(codes, id) <==> c in codes && c.id != id
  {
    if codes != [] {
      RemoveIdMembers(codes[1..], id, c);
      assert codes == [codes[0]] + codes[1..];
    }
  }

  /** Removal works piecewise: the survivors of `a + b` are those of `a` followed by those of `b`. */
  lemma {:induction false} RemoveIdAppend(a: seq<ScannedCode>, b: seq<ScannedCode>, id: Uuid)
    ensures RemoveId(a + b, id) == RemoveId(a, id) + RemoveId(b, id)
  {
    if a == [] {
      assert a + b == b;
    } else {
      assert (a + b)[0] == a[0];
      assert (a + b)[1..] == a[1..] + b;
      RemoveIdAppend(a[1..], b, id);
    }
  }

  /** Deleting an identifier that no record carries changes nothing. */
  lemma {:induction false} RemoveIdAbsent(codes: seq<ScannedCode>, id: Uuid)
    requires NoneHasId(codes, id)
    ensures RemoveId(codes, id) == codes
  {
    if codes != [] {
      assert NoneHasId(codes[1..], id) by {
        forall i | 0 <= i < |codes| - 1 ensures codes[1..][i].id != id {
          assert codes[1..][i] == codes[i + 1];
        }
      }
      RemoveIdAbsent(codes[1..], id);
    }
  }

  /** Deleting twice is deleting once. */
  lemma RemoveIdIdempotent(codes: seq<ScannedCode>, id: Uuid)
    ensures RemoveId(RemoveId(codes, id), id) == RemoveId(codes, id)
  {
    RemoveIdAbsent(RemoveId(codes, id), id);
  }

  /**
    With unique identifiers, deleting the identifier of the record at position `k`
    removes exactly that record and nothing else.
   */
  lemma RemoveIdUnique(codes: seq<ScannedCode>, k: nat)
    requires DistinctIds(codes)
    requires k < |codes|
    ensures RemoveId(codes, codes[k].id) == codes[..k] + codes[k + 1..]
  {
    var id, front, rest, back := codes[k].id, codes[..k], codes[k..], codes[k + 1..];
    OthersHaveOtherIds(codes, k);
    RemoveIdAbsent(front, id);
    RemoveIdAbsent(back, id);
    RemoveIdDropsHead(rest, id);
    assert rest[1..] == back;
    assert codes == front + rest;
    RemoveIdAppend(front, rest, id);
  }

  /** A record at the head carrying the deleted identifier is dropped. */
  lemma RemoveIdDropsHead(codes: seq<ScannedCode>, id: Uuid)
    requires codes != [] && codes[0].id == id
    ensures RemoveId(codes, id) == RemoveId(codes[1..], id)
  {
  }

  /** With unique identifiers, the records around position `k` carry other identifiers. */
  lemma OthersHaveOtherIds(codes: seq<ScannedCode>, k: nat)
    requires DistinctIds(codes)
    requires k < |codes|
    ensures NoneHasId(codes[..k], codes[k].id)
    ensures NoneHasId(codes[k + 1..], codes[k].id)
  {
    var front, back := codes[..k], codes[k + 1..];
    forall i | 0 <= i < |front| ensures front[i].id != codes[k].id {
      assert front[i] == codes[i];
    }
    forall i | 0 <= i < |back| ensures back[i].id != codes[k].id {
      assert back[i] == codes[k + 1 + i];
    }
  }

  /** Removing records never makes two contents collide. */
  lemma {:induction false} RemoveIdKeepsDistinct(canon: string -> string, codes: seq<ScannedCode>, id: Uuid)
    requires DistinctContents(canon, codes)
    ensures DistinctContents(canon, RemoveId(codes, id))
  {
    if codes != [] {
      var tail := codes[1..];
      assert DistinctContents(canon, tail) by {
        forall i, j | 0 <= i < j < |tail| ensures canon(tail[i].content) != canon(tail[j].content) {
          assert tail[i] == codes[i + 1] && tail[j] == codes[j + 1];
        }
      }
      RemoveIdKeepsDistinct(canon, tail, id);
      if codes[0].id != id {
        var rest := RemoveId(tail, id);
        forall j | 0 <= j < |rest| ensures canon(codes[0].content) != canon(rest[j].content) {
          RemoveIdMembers(tail, id, rest[j]);
          var m :| 0 <= m < |tail| && tail[m] == rest[j];
          assert codes[m + 1] == rest[j];
        }
      }
    }
  }

  /** Appending a record whose content is not yet present keeps contents distinct. */
  lemma AppendFreshKeepsDistinct(canon: string -> string, codes: seq<ScannedCode>, c: ScannedCode)
    requires DistinctContents(canon, codes)
    requires !ContainsContent(canon, codes, c.content)
    ensures DistinctContents(canon, codes + [c])
  {
    var s := codes + [c];
    forall i, j | 0 <= i < j < |s| ensures canon(s[i].content) != canon(s[j].content) {
      if j == |codes| {
        assert s[i] == codes[i];
      } else {
        assert s[i] == codes[i] && s[j] == codes[j];
      }
    }
  }

  /** Appending a record under a fresh identifier keeps identifiers distinct. */
  lemma AppendFreshIdKeepsDistinctIds(codes: seq<ScannedCode>, c: ScannedCode)
    requires DistinctIds(codes)
    requires NoneHasId(codes, c.id)
    ensures DistinctIds(codes + [c])
  {
    var s := codes + [c];
    forall i, j | 0 <= i < j < |s| ensures s[i].id != s[j].id {
      assert s[i] == codes[i];
    }
  }
}
