/**
 * What the layer-stack operations promise beyond their own contracts:
 * the filter is the only order-preserving selection of the other layers,
 * reordering permutes a stack with distinct ids, moving to the front or
 * back is idempotent, and removal undoes an upload.
 */
module StackProperties {
  import opened LayerStack

  /** A subsequence never holds an element more often than the sequence it comes from. */
  lemma {:induction false} SubsequenceMultiset(a: seq<Layer>, b: seq<Layer>)
    requires Subsequence(a, b)
    ensures multiset(a) <= multiset(b)
    decreases |b|
  {
    if a != [] {
      assert b == [b[0]] + b[1..];
      if a[0] == b[0] && Subsequence(a[1..], b[1..]) {
        SubsequenceMultiset(a[1..], b[1..]);
        assert a == [a[0]] + a[1..];
      } else {
        SubsequenceMultiset(a, b[1..]);
      }
    }
  }

  /** Any order-preserving selection of exactly the other layers is the filtered stack. */
  lemma {:induction false} WithoutIsUnique(s: seq<Layer>, id: Id, r: seq<Layer>)
    requires Subsequence(r, s) && ExactlyOthers(r, s, id)
    ensures r == Without(s, id)
    decreases |s|
  {
    if s == [] {
      assert r == [];
    } else {
      var h, t := s[0], s[1..];
      assert s == [h] + t;
      if h.id == id {
        if r == [] {
          var w := Without(s, id);
          assert multiset(w) == multiset(r) by {
            forall l: Layer ensures multiset(w)[l] == multiset(r)[l] { }
          }
          assert |w| == |multiset(w)|;
        } else {
          assert r[0] != h by {
            assert multiset(r)[r[0]] > 0;
          }
          assert Subsequence(r, t);
          assert ExactlyOthers(r, t, id) by {
            forall l: Layer ensures multiset(r)[l] == if l.id == id then 0 else multiset(t)[l] {
              assert multiset(s)[l] == multiset([h])[l] + multiset(t)[l];
            }
          }
          WithoutIsUnique(t, id, r);
        }
      } else {
        assert multiset(r)[h] == multiset(s)[h] == multiset(t)[h] + 1;
        assert r != [];
        if r[0] == h && Subsequence(r[1..], t) {
          var r' := r[1..];
          assert r == [h] + r';
          assert ExactlyOthers(r', t, id) by {
            forall l: Layer ensures multiset(r')[l] == if l.id == id then 0 else multiset(t)[l] {
              assert multiset(r)[l] == multiset([h])[l] + multiset(r')[l];
              assert multiset(s)[l] == multiset([h])[l] + multiset(t)[l];
            }
          }
          WithoutIsUnique(t, id, r');
        } else {
          assert Subsequence(r, t);
          SubsequenceMultiset(r, t);
          assert false;
        }
      }
    }
  }

  /** Filtering distributes over concatenation. */
  lemma {:induction false} WithoutConcat(a: seq<Layer>, b: seq<Layer>, id: Id)
    ensures Without(a + b, id) == Without(a, id) + Without(b, id)
  {
    if a != [] {
      var ab := a + b;
      assert ab[0] == a[0] && ab[1..] == a[1..] + b;
      WithoutConcat(a[1..], b, id);
      if a[0].id == id {
        assert Without(ab, id) == Without(a[1..] + b, id);
        assert Without(a, id) == Without(a[1..], id);
      } else {
        assert Without(ab, id) == [a[0]] + Without(a[1..] + b, id);
        assert Without(a, id) == [a[0]] + Without(a[1..], id);
        assert Without(ab, id) == [a[0]] + (Without(a[1..], id) + Without(b, id));
        assert Without(ab, id) == Without(a, id) + Without(b, id);
      }
    } else {
      assert a + b == b;
    }
  }

  /** `find` passes over a prefix that holds no layer with the id. */
  lemma {:induction false} FindSkips(a: seq<Layer>, b: seq<Layer>, id: Id)
    requires !HasId(a, id)
    ensures Find(a + b, id) == Find(b, id)
  {
    if a != [] {
      assert (a + b)[1..] == a[1..] + b;
      assert a[0].id != id;
      assert !HasId(a[1..], id) by {
        forall k | 0 <= k < |a| - 1 ensures a[1..][k].id != id {
          assert a[1..][k] == a[k + 1];
        }
      }
      FindSkips(a[1..], b, id);
      assert Find(a + b, id) == Find(a[1..] + b, id);
    } else {
      assert a + b == b;
    }
  }

  /** A stack is its part before `i`, the layer at `i`, and its part after `i`. */
  lemma SplitAround(s: seq<Layer>, i: nat)
    requires i < |s|
    ensures s == s[..i] + [s[i]] + s[i + 1..]
    ensures s == s[..i] + ([s[i]] + s[i + 1..])
  {
    assert s == s[..i] + s[i..];
    assert s[i..] == [s[i]] + s[i + 1..];
  }

  /** With distinct ids, no layer before or after index `i` shares the id of the layer at `i`. */
  lemma OnlyAt(s: seq<Layer>, i: nat)
    requires DistinctIds(s) && i < |s|
    ensures !HasId(s[..i], s[i].id) && !HasId(s[i + 1..], s[i].id)
  {
    var pre, post := s[..i], s[i + 1..];
    forall k | 0 <= k < |pre| ensures pre[k].id != s[i].id {
      assert pre[k] == s[k];
    }
    forall k | 0 <= k < |post| ensures post[k].id != s[i].id {
      assert post[k] == s[i + 1 + k];
    }
  }

  /** With distinct ids the selected layer sits at one index `i`, `find` picks it and the filter cuts it out. */
  lemma SplitAtSelected(s: seq<Layer>, id: Id) returns (i: nat)
    requires DistinctIds(s) && HasId(s, id)
    ensures i < |s| && s[i].id == id
    ensures Find(s, id) == Some(s[i])
    ensures Without(s, id) == s[..i] + s[i + 1..]
  {
    i :| 0 <= i < |s| && s[i].id == id;
    var pre, post := s[..i], s[i + 1..];
    SplitAround(s, i);
    OnlyAt(s, i);
    FindSkips(pre, [s[i]] + post, id);
    WithoutDropsMiddle(pre, s[i], post, id);
  }

  /** A layer of a subsequence is a layer of the sequence it comes from. */
  lemma SubsequenceMember(a: seq<Layer>, b: seq<Layer>, l: Layer)
    requires Subsequence(a, b) && l in a
    ensures l in b
  {
  }

  /** Filtering keeps ids distinct. */
  lemma {:induction false} WithoutKeepsDistinct(s: seq<Layer>, id: Id)
    requires DistinctIds(s)
    ensures DistinctIds(Without(s, id))
    decreases |s|
  {
    if s != [] {
      var h, t := s[0], s[1..];
      assert DistinctIds(t) by {
        forall p, q | 0 <= p < q < |t| ensures t[p].id != t[q].id {
          assert t[p] == s[p + 1] && t[q] == s[q + 1];
        }
      }
      WithoutKeepsDistinct(t, id);
      var w := Without(t, id);
      if h.id != id {
        assert !HasId(w, h.id) by {
          forall k | 0 <= k < |w| ensures w[k].id != h.id {
            SubsequenceMember(w, t, w[k]);
            var m :| 0 <= m < |t| && t[m] == w[k];
            assert t[m] == s[m + 1];
          }
        }
        DistinctCons(h, w);
      }
    }
  }

  /** Putting a layer with a new id below or above a stack with distinct ids keeps them distinct. */
  lemma DistinctCons(a: Layer, w: seq<Layer>)
    requires DistinctIds(w) && !HasId(w, a.id)
    ensures DistinctIds([a] + w) && DistinctIds(w + [a])
  {
  }

  /** With distinct ids, "Back" only reorders the stack. */
  lemma MoveToBackPermutes(s: seq<Layer>, id: Id)
    requires DistinctIds(s) && HasId(s, id)
    ensures |MoveToBack(s, id)| == |s|
    ensures multiset(MoveToBack(s, id)) == multiset(s)
    ensures DistinctIds(MoveToBack(s, id))
    ensures HasId(MoveToBack(s, id), id)
  {
    var i := SplitAtSelected(s, id);
    var w, r := Without(s, id), MoveToBack(s, id);
    assert r == [s[i]] + w;
    assert multiset(r) == multiset(s) by {
      SplitAround(s, i);
    }
    WithoutKeepsDistinct(s, id);
    DistinctCons(s[i], w);
  }

  /** With distinct ids, "Front" only reorders the stack. */
  lemma MoveToFrontPermutes(s: seq<Layer>, id: Id)
    requires DistinctIds(s) && HasId(s, id)
    ensures |MoveToFront(s, id)| == |s|
    ensures multiset(MoveToFront(s, id)) == multiset(s)
    ensures DistinctIds(MoveToFront(s, id))
    ensures HasId(MoveToFront(s, id), id)
  {
    var i := SplitAtSelected(s, id);
    var w, r := Without(s, id), MoveToFront(s, id);
    assert r == w + [s[i]];
    assert multiset(r) == multiset(s) by {
      SplitAround(s, i);
    }
    WithoutKeepsDistinct(s, id);
    DistinctCons(s[i], w);
  }

  /** "Front" keeps the other layers in their original relative order. */
  lemma MoveToFrontKeepsOrder(s: seq<Layer>, id: Id)
    requires HasId(s, id)
    ensures var r := MoveToFront(s, id); Subsequence(r[..|r| - 1], s)
  {
    var r, w := MoveToFront(s, id), Without(s, id);
    assert r[..|r| - 1] == w;
  }

  /** After "Front", `find` still picks the same layer and the filter still yields the same stack. */
  lemma FrontKeepsParts(s: seq<Layer>, id: Id)
    requires HasId(s, id)
    ensures Find(MoveToFront(s, id), id) == Find(s, id)
    ensures Without(MoveToFront(s, id), id) == Without(s, id)
  {
    var w, a := Without(s, id), Find(s, id).value;
    var r := MoveToFront(s, id);
    assert r == w + [a];
    assert Find(r, id) == Some(a) by {
      FindSkips(w, [a], id);
    }
    assert Without(r, id) == w by {
      WithoutConcat(w, [a], id);
      assert Without([a], id) == [] by {
        assert [a][1..] == [];
      }
    }
  }

  /** Pressing "Front" a second time changes nothing. */
  lemma MoveToFrontIdempotent(s: seq<Layer>, id: Id)
    requires HasId(s, id)
    ensures MoveToFront(MoveToFront(s, id), id) == MoveToFront(s, id)
  {
    FrontKeepsParts(s, id);
  }

  /** Pressing "Back" a second time changes nothing. */
  lemma MoveToBackIdempotent(s: seq<Layer>, id: Id)
    requires HasId(s, id)
    ensures MoveToBack(MoveToBack(s, id), id) == MoveToBack(s, id)
  {
  }

  /** "Front" then "Back" ends where a single "Back" does: the other layers keep their original order. */
  lemma FrontThenBack(s: seq<Layer>, id: Id)
    requires HasId(s, id)
    ensures MoveToBack(MoveToFront(s, id), id) == MoveToBack(s, id)
  {
    FrontKeepsParts(s, id);
  }

  /** "Back" then "Front" ends where a single "Front" does. */
  lemma BackThenFront(s: seq<Layer>, id: Id)
    requires HasId(s, id)
    ensures MoveToFront(MoveToBack(s, id), id) == MoveToFront(s, id)
  {
  }

  /** Uploading `a + b` is uploading `a`, then the layers made from `b`. */
  lemma AppendUploadsConcat(s: seq<Layer>, a: seq<PickedFile>, b: seq<PickedFile>)
    ensures AppendUploads(s, a + b) == AppendUploads(s, a) + AppendUploads([], b)
  {
    var l, r := AppendUploads(s, a + b), AppendUploads(s, a) + AppendUploads([], b);
    forall j | 0 <= j < |l| ensures l[j] == r[j] {
      if j >= |s| + |a| {
        assert (a + b)[j - |s|] == b[j - |s| - |a|];
      } else if j >= |s| {
        assert (a + b)[j - |s|] == a[j - |s|];
      } else {
        assert AppendUploads(s, a)[..|s|][j] == s[j];
      }
    }
  }

  /** The upload of `files` is the upload of the files before `k`, the layer made from file `k`, and the layers made from the files after it. */
  lemma AppendUploadsSplit(s: seq<Layer>, files: seq<PickedFile>, k: nat)
    requires k < |files|
    ensures AppendUploads(s, files) == AppendUploads(s, files[..k]) + [NewLayer(files[k])] + AppendUploads([], files[k + 1..])
  {
    var pre, post := files[..k], files[k + 1..];
    assert files == pre + ([files[k]] + post);
    AppendUploadsConcat(s, pre, [files[k]] + post);
    AppendUploadsConcat([], [files[k]], post);
    assert AppendUploads([], [files[k]]) == [NewLayer(files[k])];
  }

  /** None of the layers made from the other picked files carries the id of file `k`. */
  lemma OtherUploadsLackId(s: seq<Layer>, files: seq<PickedFile>, k: nat)
    requires FreshIds(s, files) && k < |files|
    ensures !HasId(AppendUploads(s, files[..k]), files[k].id)
    ensures !HasId(AppendUploads([], files[k + 1..]), files[k].id)
  {
    var id := files[k].id;
    var before := AppendUploads(s, files[..k]);
    forall j | 0 <= j < |before| ensures before[j].id != id {
      if j < |s| {
        assert before[..|s|][j] == s[j];
      }
    }
    var after := AppendUploads([], files[k + 1..]);
    forall j | 0 <= j < |after| ensures after[j].id != id {
      assert after[j].id == files[k + 1 + j].id;
    }
  }

  /** Filtering cuts out a single matching layer between two parts that hold none. */
  lemma WithoutDropsMiddle(before: seq<Layer>, x: Layer, after: seq<Layer>, id: Id)
    requires !HasId(before, id) && !HasId(after, id) && x.id == id
    ensures Without(before + [x] + after, id) == before + after
  {
    var mid := before + [x];
    assert Without(mid, id) == before by {
      WithoutConcat(before, [x], id);
      assert Without([x], id) == [] by {
        assert [x][1..] == [];
      }
    }
    assert Without(mid + after, id) == Without(mid, id) + after by {
      WithoutConcat(mid, after, id);
    }
  }

  /**
   * Removing the layer made from the `k`-th picked file gives the stack the
   * upload would have produced without that file; for a one-file upload, the
   * stack from before the upload.
   */
  lemma RemoveUndoesUpload(s: seq<Layer>, files: seq<PickedFile>, k: nat)
    requires FreshIds(s, files) && k < |files|
    ensures Without(AppendUploads(s, files), files[k].id) == AppendUploads(s, files[..k] + files[k + 1..])
    ensures |files| == 1 ==> Without(AppendUploads(s, files), files[0].id) == s
  {
    var pre, post := files[..k], files[k + 1..];
    AppendUploadsSplit(s, files, k);
    OtherUploadsLackId(s, files, k);
    WithoutDropsMiddle(AppendUploads(s, pre), NewLayer(files[k]), AppendUploads([], post), files[k].id);
    AppendUploadsConcat(s, pre, post);
    if |files| == 1 {
      assert pre + post == [];
    }
  }

  /** Upload with fresh ids keeps ids distinct and a valid selection valid. */
  lemma UploadKeepsInvariant(s: seq<Layer>, files: seq<PickedFile>, selection: Option<Id>)
    requires DistinctIds(s) && SelectionNamesLayer(s, selection) && FreshIds(s, files)
    ensures DistinctIds(AppendUploads(s, files))
    ensures SelectionNamesLayer(AppendUploads(s, files), selection)
  {
  }

  /** Removing a layer, and clearing the selection when it named that layer, keeps the selection naming a present layer. */
  lemma RemoveKeepsSelection(s: seq<Layer>, selection: Option<Id>, id: Id)
    requires SelectionNamesLayer(s, selection)
    ensures SelectionNamesLayer(Without(s, id), if selection == Some(id) then None else selection)
  {
    if selection.Some? && selection.value != id {
      var k :| 0 <= k < |s| && s[k].id == selection.value;
      var w := Without(s, id);
      assert multiset(w)[s[k]] == multiset(s)[s[k]] > 0;
      assert s[k] in w;
    }
  }
}
