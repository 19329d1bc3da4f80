/** The compiler's blob map: one blob per label, iterated in label order (`BTreeMap`, src/compile.rs:237-268). */
module BlobTable {
  import opened Basics
  import opened Upstream
  import opened Directory

  lemma {:induction false} LessIsStrict(a: string)
    ensures !Less(a, a)
    decreases |a|
  {
    if a != [] {
      LessIsStrict(a[1..]);
    }
  }

  lemma {:induction false} LessIsTotal(a: string, b: string)
    ensures Less(a, b) || a == b || Less(b, a)
    decreases |a|
  {
    if a != [] && b != [] {
      LessIsTotal(a[1..], b[1..]);
      assert a == [a[0]] + a[1..] && b == [b[0]] + b[1..];
    }
  }

  lemma {:induction false} LessIsTransitive(a: string, b: string, c: string)
    requires Less(a, b) && Less(b, c)
    ensures Less(a, c)
    decreases |a|
  {
    if a != [] && a[0] == b[0] && b[0] == c[0] {
      LessIsTransitive(a[1..], b[1..], c[1..]);
    }
  }

  /** `insert`: a blob under a label that is already there replaces it. */
  function Put(table: seq<Blob>, blob: Blob): seq<Blob> {
    if table == [] || Less(blob.kappa, table[0].kappa) then [blob] + table
    else if table[0].kappa == blob.kappa then [blob] + table[1..]
    else [table[0]] + Put(table[1..], blob)
  }

  function PutAll(table: seq<Blob>, blobs: seq<Blob>): seq<Blob> {
    if blobs == [] then table else Put(PutAll(table, blobs[..|blobs| - 1]), blobs[|blobs| - 1])
  }

  /** Strictly increasing labels, each the address of its bytes. */
  ghost predicate Ordered(up: Crates, table: seq<Blob>)
    decreases |table|
  {
    table == [] ||
    (&& up.address(table[0].content) == table[0].kappa
     && (|table| > 1 ==> Less(table[0].kappa, table[1].kappa))
     && Ordered(up, table[1..]))
  }

  lemma {:induction false} PutKeeps(up: Crates, table: seq<Blob>, blob: Blob)
    requires Ordered(up, table) && up.address(blob.content) == blob.kappa
    ensures Ordered(up, Put(table, blob))
    ensures table != [] && !Less(blob.kappa, table[0].kappa) ==> Put(table, blob)[0].kappa == table[0].kappa
    decreases |table|
  {
    if table == [] || Less(blob.kappa, table[0].kappa) {
      assert ([blob] + table)[1..] == table;
    } else if table[0].kappa == blob.kappa {
      assert ([blob] + table[1..])[1..] == table[1..];
    } else {
      var rest := Put(table[1..], blob);
      PutKeeps(up, table[1..], blob);
      LessIsTotal(table[0].kappa, blob.kappa);
      assert ([table[0]] + rest)[1..] == rest;
    }
  }

  lemma {:induction false} PutLabels(table: seq<Blob>, blob: Blob)
    ensures BlobLabels(Put(table, blob)) == BlobLabels(table) + {blob.kappa}
    decreases |table|
  {
    if table == [] {
      LabelsCons(blob, []);
    } else {
      LabelsCons(table[0], table[1..]);
      if Less(blob.kappa, table[0].kappa) {
        LabelsCons(blob, table);
      } else if table[0].kappa == blob.kappa {
        LabelsCons(blob, table[1..]);
      } else {
        PutLabels(table[1..], blob);
        LabelsCons(table[0], Put(table[1..], blob));
      }
    }
  }

  lemma {:induction false} LabelsCons(blob: Blob, rest: seq<Blob>)
    ensures BlobLabels([blob] + rest) == {blob.kappa} + BlobLabels(rest)
    ensures rest != [] ==> [rest[0]] + rest[1..] == rest
    ensures BlobLabels([]) == {}
  {
    var all := [blob] + rest;
    forall k | k in {blob.kappa} + BlobLabels(rest)
      ensures k in BlobLabels(all)
    {
      if k in BlobLabels(rest) {
        var i :| 0 <= i < |rest| && rest[i].kappa == k;
        assert all[i + 1].kappa == k;
      } else {
        assert all[0].kappa == k;
      }
    }
  }

  lemma {:induction false} PutAllKeeps(up: Crates, table: seq<Blob>, blobs: seq<Blob>)
    requires Ordered(up, table) && forall i :: 0 <= i < |blobs| ==> up.address(blobs[i].content) == blobs[i].kappa
    ensures Ordered(up, PutAll(table, blobs))
    ensures BlobLabels(PutAll(table, blobs)) == BlobLabels(table) + BlobLabels(blobs)
    decreases |blobs|
  {
    hide BlobLabels, Ordered, Put;
    if blobs == [] {
      LabelsNone();
    } else {
      var n := |blobs| - 1;
      PutAllKeeps(up, table, blobs[..n]);
      PutKeeps(up, PutAll(table, blobs[..n]), blobs[n]);
      PutLabels(PutAll(table, blobs[..n]), blobs[n]);
      AddressedStep(up, blobs);
    }
  }

  /** Every blob is one of these byte strings. */
  ghost predicate ContentsIn(table: seq<Blob>, texts: set<Bytes>) {
    forall i :: 0 <= i < |table| ==> table[i].content in texts
  }

  lemma {:induction false} PutContents(table: seq<Blob>, blob: Blob, texts: set<Bytes>)
    requires ContentsIn(table, texts) && blob.content in texts
    ensures ContentsIn(Put(table, blob), texts)
    decreases |table|
  {
    if table != [] {
      PutContents(table[1..], blob, texts);
    }
  }

  lemma {:induction false} PutAllContents(table: seq<Blob>, blobs: seq<Blob>, texts: set<Bytes>)
    requires ContentsIn(table, texts) && ContentsIn(blobs, texts)
    ensures ContentsIn(PutAll(table, blobs), texts)
    decreases |blobs|
  {
    hide Put;
    if blobs != [] {
      var n := |blobs| - 1;
      PutAllContents(table, blobs[..n], texts);
      PutContents(PutAll(table, blobs[..n]), blobs[n], texts);
    }
  }

  lemma {:induction false} LabelsNone()
    ensures BlobLabels([]) == {}
  {
  }

  lemma {:induction false} OrderedHead(up: Crates, table: seq<Blob>, i: nat)
    requires Ordered(up, table) && 0 < i < |table|
    ensures Less(table[0].kappa, table[i].kappa)
    decreases |table|
  {
    if i > 1 {
      OrderedHead(up, table[1..], i - 1);
      LessIsTransitive(table[0].kappa, table[1].kappa, table[i].kappa);
    }
  }

  /** Distinct labels, each the address of its bytes: what a directory requires of a blob table. */
  lemma {:induction false} OrderedIsAddressed(up: Crates, table: seq<Blob>)
    requires Ordered(up, table)
    ensures Addressed(up, table)
    decreases |table|
  {
    if table != [] {
      OrderedIsAddressed(up, table[1..]);
      var rest := table[1..];
      forall i, j | 0 <= i < j < |table|
        ensures table[i].kappa != table[j].kappa
      {
        if i == 0 {
          OrderedHead(up, table, j);
          LessIsStrict(table[0].kappa);
        } else {
          assert rest[i - 1] == table[i] && rest[j - 1] == table[j];
        }
      }
      assert forall i :: 0 < i < |table| ==> table[i] == rest[i - 1];
    }
  }
}
