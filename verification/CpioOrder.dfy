/** The order in which a rootfs tree goes into a newc archive: a hard link group is held
    back to its last name, where the earlier names are written first, reversed and
    without data. */
module CpioOrder {
  import opened Prelude

  type Key = (u64, u64)   // device and inode

  datatype Node = Node(key: Key, isDir: bool, nlink: u32, mode: u32, rdev: u64, name: seq<byte>)
  {
    predicate Linked() {
      !isDir && nlink > 1
    }
  }

  /** Write entry `index`, with its payload or as a bare name. */
  datatype Emit = Emit(index: nat, withData: bool)

  // The declarative order.

  /** Entry `j` is a name of the multiply linked file `key`. */
  predicate Names(nodes: seq<Node>, key: Key, j: nat)
    requires j < |nodes|
  {
    nodes[j].Linked() && nodes[j].key == key
  }

  ghost predicate NoneNames(nodes: seq<Node>, key: Key, from: nat, to: nat)
    requires to <= |nodes|
  {
    forall j :: from <= j < to ==> !Names(nodes, key, j)
  }

  /** No later name of the same file. */
  ghost predicate IsLast(nodes: seq<Node>, i: nat)
    requires i < |nodes|
  {
    NoneNames(nodes, nodes[i].key, i + 1, |nodes|)
  }

  /** The linked entries with this key among the first `k`, in order. */
  function Links(nodes: seq<Node>, key: Key, k: nat): seq<nat>
    requires k <= |nodes|
  {
    if k == 0 then []
    else
      Links(nodes, key, k - 1) + if Names(nodes, key, k - 1) then [k - 1] else []
  }

  /** The same entries, last first, without data. */
  function Reversed(links: seq<nat>): seq<Emit> {
    if links == [] then []
    else [Emit(links[|links| - 1], false)] + Reversed(links[..|links| - 1])
  }

  /** What reaching entry `i` writes. */
  ghost function Block(nodes: seq<Node>, i: nat): seq<Emit>
    requires i < |nodes|
  {
    if !nodes[i].Linked() then [Emit(i, true)]
    else if IsLast(nodes, i) then Reversed(Links(nodes, nodes[i].key, i)) + [Emit(i, true)]
    else []
  }

  ghost function Order(nodes: seq<Node>, k: nat): seq<Emit>
    requires k <= |nodes|
  {
    if k == 0 then [] else Order(nodes, k - 1) + Block(nodes, k - 1)
  }

  // Links.

  lemma {:induction false} LinksMembers(nodes: seq<Node>, key: Key, k: nat, j: nat)
    requires k <= |nodes|
    ensures j in Links(nodes, key, k) <==> j < k && Names(nodes, key, j)
    decreases k
  {
    if k > 0 {
      LinksMembers(nodes, key, k - 1, j);
    }
  }

  lemma {:induction false} LinksAscend(nodes: seq<Node>, key: Key, k: nat)
    requires k <= |nodes|
    ensures forall a, b :: 0 <= a < b < |Links(nodes, key, k)| ==> Links(nodes, key, k)[a] < Links(nodes, key, k)[b]
    decreases k
  {
    if k > 0 {
      LinksAscend(nodes, key, k - 1);
      var before := Links(nodes, key, k - 1);
      forall a | 0 <= a < |before| ensures before[a] < k - 1 {
        LinksMembers(nodes, key, k - 1, before[a]);
      }
    }
  }

  /** The count at `k` reaches the total exactly when no further link is to come. */
  lemma {:induction false} LinksGrow(nodes: seq<Node>, key: Key, k: nat, n: nat)
    requires k <= n <= |nodes|
    ensures |Links(nodes, key, k)| <= |Links(nodes, key, n)|
    ensures |Links(nodes, key, k)| == |Links(nodes, key, n)| <==> NoneNames(nodes, key, k, n)
    decreases n
  {
    if k < n {
      LinksGrow(nodes, key, k, n - 1);
    }
  }

  lemma LastIffTotal(nodes: seq<Node>, i: nat)
    requires i < |nodes| && nodes[i].Linked()
    ensures IsLast(nodes, i) <==>
            |Links(nodes, nodes[i].key, i)| + 1 == |Links(nodes, nodes[i].key, |nodes|)|
    ensures |Links(nodes, nodes[i].key, i)| + 1 <= |Links(nodes, nodes[i].key, |nodes|)|
  {
    var key := nodes[i].key;
    assert |Links(nodes, key, i + 1)| == |Links(nodes, key, i)| + 1;
    hide Links;
    LinksGrow(nodes, key, i + 1, |nodes|);
  }

  lemma {:induction false} ReversedMembers(links: seq<nat>, e: Emit)
    ensures e in Reversed(links) <==> !e.withData && e.index in links
    decreases |links|
  {
    if links != [] {
      assert links == links[..|links| - 1] + [links[|links| - 1]];
      ReversedMembers(links[..|links| - 1], e);
    }
  }

  // A permutation.

  ghost predicate Distinct(order: seq<Emit>) {
    forall a, b :: 0 <= a < b < |order| ==> order[a].index != order[b].index
  }

  /** Where entry `j` is written: its own place, or its group's last. */
  ghost predicate WrittenAt(nodes: seq<Node>, i: nat, j: nat)
    requires i < |nodes| && j < |nodes|
  {
    if nodes[j].Linked() then IsLast(nodes, i) && Names(nodes, nodes[j].key, i) else i == j
  }

  /** A block writes exactly the entries that belong there; data goes with the entry
      itself, so a group's data is written once, by its last link. */
  lemma BlockWrites(nodes: seq<Node>, i: nat, e: Emit)
    requires i < |nodes|
    ensures e in Block(nodes, i) <==>
            e.index < |nodes| && WrittenAt(nodes, i, e.index) && (e.withData <==> e.index == i)
  {
    if nodes[i].Linked() && IsLast(nodes, i) {
      ReversedMembers(Links(nodes, nodes[i].key, i), e);
      LinksMembers(nodes, nodes[i].key, i, e.index);
      assert e.index < |nodes| && nodes[e.index].Linked() && nodes[e.index].key == nodes[i].key ==>
               Names(nodes, nodes[i].key, e.index);
    }
  }

  lemma {:induction false} ReversedDistinct(links: seq<nat>)
    requires forall a, b :: 0 <= a < b < |links| ==> links[a] < links[b]
    ensures Distinct(Reversed(links)) && |Reversed(links)| == |links|
    decreases |links|
  {
    if links != [] {
      var init, last := links[..|links| - 1], links[|links| - 1];
      ReversedDistinct(init);
      var rest := Reversed(init);
      forall e | e in rest ensures e.index != last {
        ReversedMembers(init, e);
      }
      assert forall b :: 0 <= b < |rest| ==> rest[b] in rest;
    }
  }

  lemma BlockDistinct(nodes: seq<Node>, i: nat)
    requires i < |nodes|
    ensures Distinct(Block(nodes, i))
  {
    if nodes[i].Linked() && IsLast(nodes, i) {
      var links := Links(nodes, nodes[i].key, i);
      LinksAscend(nodes, nodes[i].key, i);
      ReversedDistinct(links);
      var rest := Reversed(links);
      forall a | 0 <= a < |rest| ensures rest[a].index != i {
        assert rest[a] in rest;
        ReversedMembers(links, rest[a]);
        LinksMembers(nodes, nodes[i].key, i, rest[a].index);
      }
    }
  }

  /** Each entry has one place. */
  lemma OnePlace(nodes: seq<Node>, i: nat, k: nat, j: nat)
    requires i < |nodes| && k < |nodes| && j < |nodes| && WrittenAt(nodes, i, j) && WrittenAt(nodes, k, j)
    ensures i == k
  {
  }

  lemma {:induction false} OrderWrites(nodes: seq<Node>, k: nat, e: Emit)
    requires k <= |nodes|
    ensures e in Order(nodes, k) <==>
            exists i :: 0 <= i < k && e in Block(nodes, i)
    decreases k
  {
    hide Block;
    if k > 0 {
      OrderWrites(nodes, k - 1, e);
      assert e in Order(nodes, k) <==> e in Order(nodes, k - 1) || e in Block(nodes, k - 1);
    }
  }

  lemma {:induction false} OrderDistinct(nodes: seq<Node>, k: nat)
    requires k <= |nodes|
    ensures Distinct(Order(nodes, k))
    decreases k
  {
    if k > 0 {
      OrderDistinct(nodes, k - 1);
      BlockDistinct(nodes, k - 1);
      var a, b := Order(nodes, k - 1), Block(nodes, k - 1);
      forall x, y | 0 <= x < |a| && 0 <= y < |b| ensures a[x].index != b[y].index {
        assert a[x] in a && b[y] in b;
        OrderWrites(nodes, k - 1, a[x]);
        var i :| 0 <= i < k - 1 && a[x] in Block(nodes, i);
        BlockWrites(nodes, i, a[x]);
        BlockWrites(nodes, k - 1, b[y]);
        if a[x].index == b[y].index {
          OnePlace(nodes, i, k - 1, a[x].index);
        }
      }
      DistinctJoin(a, b);
    }
  }

  lemma DistinctJoin(a: seq<Emit>, b: seq<Emit>)
    requires Distinct(a) && Distinct(b)
    requires forall x, y :: 0 <= x < |a| && 0 <= y < |b| ==> a[x].index != b[y].index
    ensures Distinct(a + b)
  {
    var all := a + b;
    forall x, y | 0 <= x < y < |all| ensures all[x].index != all[y].index {
      if x < |a| <= y {
        assert all[x] == a[x] && all[y] == b[y - |a|];
      } else if x >= |a| {
        assert all[x] == b[x - |a|] && all[y] == b[y - |a|];
      }
    }
  }

  /** The last link of an entry's group. */
  lemma {:induction false} LastOf(nodes: seq<Node>, j: nat, from: nat) returns (i: nat)
    requires j <= from < |nodes| && nodes[j].Linked() && Names(nodes, nodes[j].key, from)
    ensures i < |nodes| && WrittenAt(nodes, i, j)
    decreases |nodes| - from
  {
    if IsLast(nodes, from) {
      i := from;
    } else {
      var later :| from < later < |nodes| && Names(nodes, nodes[j].key, later);
      i := LastOf(nodes, j, later);
    }
  }

  /** A later entry, itself a file of several names, has the same device and inode. */
  ghost predicate NamedLater(nodes: seq<Node>, j: nat)
    requires j < |nodes|
  {
    exists i :: j < i < |nodes| && nodes[i].key == nodes[j].key && !nodes[i].isDir && nodes[i].nlink > 1
  }

  lemma LastIsNotNamedLater(nodes: seq<Node>, j: nat)
    requires j < |nodes|
    ensures IsLast(nodes, j) <==> !NamedLater(nodes, j)
  {
    if IsLast(nodes, j) && NamedLater(nodes, j) {
      var i :| j < i < |nodes| && nodes[i].key == nodes[j].key && !nodes[i].isDir && nodes[i].nlink > 1;
      assert Names(nodes, nodes[j].key, i);
      assert false;
    }
  }

  /** For every entry list the output is a permutation of it; an entry carries data
      exactly when it is a directory, has one name only, or is the last of its names. */
  lemma OrderIsPermutation(nodes: seq<Node>)
    ensures var order := Order(nodes, |nodes|);
            && Distinct(order)
            && (forall e :: e in order ==> e.index < |nodes|)
            && (forall j :: 0 <= j < |nodes| ==>
                  Emit(j, nodes[j].isDir || nodes[j].nlink <= 1 || !NamedLater(nodes, j)) in order)
  {
    var order := Order(nodes, |nodes|);
    OrderDistinct(nodes, |nodes|);
    forall e | e in order ensures e.index < |nodes| {
      OrderWrites(nodes, |nodes|, e);
      var i :| 0 <= i < |nodes| && e in Block(nodes, i);
      BlockWrites(nodes, i, e);
    }
    forall j | 0 <= j < |nodes|
      ensures Emit(j, nodes[j].isDir || nodes[j].nlink <= 1 || !NamedLater(nodes, j)) in order
    {
      LastIsNotNamedLater(nodes, j);
      var i: nat := j;
      if nodes[j].Linked() {
        i := LastOf(nodes, j, j);
      }
      var e := Emit(j, !nodes[j].Linked() || IsLast(nodes, j));
      if nodes[j].Linked() && IsLast(nodes, j) {
        assert WrittenAt(nodes, j, j);
        OnePlace(nodes, i, j, j);
      }
      BlockWrites(nodes, i, e);
      OrderWrites(nodes, |nodes|, e);
    }
  }

  // The order itself.

  /** The last name of the file that entry `j` is a name of; `j` itself if it has no
      other. */
  ghost predicate Closes(nodes: seq<Node>, j: nat, i: nat)
    requires j < |nodes|
  {
    i < |nodes| && WrittenAt(nodes, i, j)
  }

  /** Entry `j` goes before entry `k`: its file is complete earlier; or they are names of
      one file and `k` is the last; or neither is, and `j` is the later. */
  ghost predicate GoesBefore(nodes: seq<Node>, j: nat, k: nat)
    requires j < |nodes| && k < |nodes|
  {
    exists a, b :: Closes(nodes, j, a) && Closes(nodes, k, b) && (a < b || (a == b && (k == b || (j != a && k < j))))
  }

  ghost predicate InOrder(nodes: seq<Node>, order: seq<Emit>) {
    && (forall x :: 0 <= x < |order| ==> order[x].index < |nodes|)
    && forall x, y :: 0 <= x < y < |order| ==> GoesBefore(nodes, order[x].index, order[y].index)
  }

  predicate Descends(r: seq<Emit>) {
    forall x, y :: 0 <= x < y < |r| ==> r[y].index < r[x].index
  }

  lemma {:induction false} ReversedDescends(links: seq<nat>)
    requires forall a, b :: 0 <= a < b < |links| ==> links[a] < links[b]
    ensures Descends(Reversed(links))
    decreases |links|
  {
    if links != [] {
      var init, last := links[..|links| - 1], links[|links| - 1];
      ReversedDescends(init);
      forall e | e in Reversed(init) ensures e.index < last {
        ReversedMembers(init, e);
      }
      var rest := Reversed(init);
      var all := [Emit(last, false)] + rest;
      forall x, y | 0 <= x < y < |all| ensures all[y].index < all[x].index {
        assert all[y] == rest[y - 1] && rest[y - 1] in rest;
        if x > 0 {
          assert all[x] == rest[x - 1];
          assert rest[y - 1].index < rest[x - 1].index;
        }
      }
    }
  }

  lemma BlockInOrder(nodes: seq<Node>, i: nat)
    requires i < |nodes|
    ensures InOrder(nodes, Block(nodes, i))
    ensures forall e :: e in Block(nodes, i) ==> e.index < |nodes| && Closes(nodes, e.index, i)
  {
    var block := Block(nodes, i);
    forall e | e in block ensures e.index < |nodes| && Closes(nodes, e.index, i) && (e.withData <==> e.index == i) {
      BlockWrites(nodes, i, e);
    }
    assert forall x :: 0 <= x < |block| ==> block[x] in block;
    if nodes[i].Linked() && IsLast(nodes, i) {
      var links := Links(nodes, nodes[i].key, i);
      LinksAscend(nodes, nodes[i].key, i);
      ReversedDescends(links);
      assert forall e :: e in Reversed(links) ==> !e.withData by { AllBare(links); }
      assert forall x :: 0 <= x < |Reversed(links)| ==> block[x] == Reversed(links)[x] && block[x] in Reversed(links);
      forall x, y | 0 <= x < y < |block| ensures GoesBefore(nodes, block[x].index, block[y].index) {
        hide Closes, Block;
        assert Closes(nodes, block[x].index, i) && Closes(nodes, block[y].index, i);
      }
    }
  }

  lemma AllBare(links: seq<nat>)
    ensures forall e :: e in Reversed(links) ==> !e.withData
  {
    forall e | e in Reversed(links) ensures !e.withData {
      ReversedMembers(links, e);
    }
  }

  /** Every group stands where its last name does, that name after the others and the
      others in reverse; with the permutation this is the whole order. */
  lemma {:induction false} OrderIsSorted(nodes: seq<Node>, k: nat)
    requires k <= |nodes|
    ensures InOrder(nodes, Order(nodes, k))
    ensures forall e :: e in Order(nodes, k) ==>
              e.index < |nodes| && exists i: nat :: i < k && Closes(nodes, e.index, i)
    decreases k
  {
    hide Block, Closes;
    if k > 0 {
      OrderIsSorted(nodes, k - 1);
      BlockInOrder(nodes, k - 1);
      var a, b := Order(nodes, k - 1), Block(nodes, k - 1);
      var all := a + b;
      forall x, y | 0 <= x < y < |all| ensures GoesBefore(nodes, all[x].index, all[y].index) {
        if x < |a| <= y {
          assert all[x] == a[x] && a[x] in a && all[y] == b[y - |a|] && b[y - |a|] in b;
          var i: nat :| i < k - 1 && Closes(nodes, a[x].index, i);
          assert Closes(nodes, b[y - |a|].index, k - 1);
        } else if x >= |a| {
          assert all[x] == b[x - |a|] && all[y] == b[y - |a|];
        }
      }
    }
  }
}
