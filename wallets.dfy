/** The wallet sync page (frontend/src/pages/WalletSync.jsx): a list of synced
    wallets, an address field, a submit handler that appends a wallet for the
    typed address, and a remove handler. */
module Wallets {
  import opened Basics

  datatype Wallet = Wallet(id: int, address: string, kind: string, lastSynced: string)

  /** The one wallet the page starts with. */
  const InitialWallet := Wallet(1, "0x742d35Cc6634C0532925a3b844Bc454e4438f44e", "Ethereum", "2024-01-15T10:30:00Z")

  predicate DistinctIds(ws: seq<Wallet>)
  {
    forall a, b :: 0 <= a < b < |ws| ==> ws[a].id != ws[b].id
  }

  // ---------------------------------------------------------------------------
  // Sync, as written: the new id is the list's length plus one

  function AsWrittenSynced(ws: seq<Wallet>, address: string, now: string): seq<Wallet>
  {
    ws + [Wallet(|ws| + 1, address, "Ethereum", now)]
  }

  /** The ids are 1, 2, ..., n. */
  predicate Consecutive(ws: seq<Wallet>)
  {
    forall k :: 0 <= k < |ws| ==> ws[k].id == k + 1
  }

  /** Without removals the length-based id is always fresh: the list starts
      numbered 1..n and each sync keeps it so. */
  lemma AsWrittenKeepsConsecutive(ws: seq<Wallet>, address: string, now: string)
    requires Consecutive(ws)
    ensures Consecutive(AsWrittenSynced(ws, address, now))
    ensures DistinctIds(AsWrittenSynced(ws, address, now))
  {
  }

  /** After a removal the length-based id can repeat one still in the list:
      sync a wallet (ids 1, 2), remove wallet 1, sync again and the new
      wallet gets id 2 as well; removing id 2 then drops both wallets. */
  lemma AsWrittenReusesId()
    ensures var ws := AsWrittenSynced(Removed(AsWrittenSynced([InitialWallet], "0xA", "t1"), 1), "0xB", "t2");
      |ws| == 2 && ws[0].id == 2 && ws[1].id == 2 && !DistinctIds(ws) && Removed(ws, 2) == []
  {
    var ws1 := AsWrittenSynced([InitialWallet], "0xA", "t1");
    assert ws1 == [InitialWallet, Wallet(2, "0xA", "Ethereum", "t1")];
    assert ws1[1..] == [Wallet(2, "0xA", "Ethereum", "t1")] && ws1[1..][1..] == [];
    assert Removed(ws1[1..], 1) == [Wallet(2, "0xA", "Ethereum", "t1")];
    var ws2 := Removed(ws1, 1);
    assert ws2 == [Wallet(2, "0xA", "Ethereum", "t1")];
    var ws3 := AsWrittenSynced(ws2, "0xB", "t2");
    assert ws3 == [Wallet(2, "0xA", "Ethereum", "t1"), Wallet(2, "0xB", "Ethereum", "t2")];
    assert ws3[1..] == [Wallet(2, "0xB", "Ethereum", "t2")] && ws3[1..][1..] == [];
    assert Removed(ws3[1..], 2) == [];
  }

  // ---------------------------------------------------------------------------
  // Sync, corrected: the new id is one more than the largest id in the list

  function MaxId(ws: seq<Wallet>): (r: int)
    ensures r >= 0
    ensures forall k :: 0 <= k < |ws| ==> ws[k].id <= r
  {
    if ws == [] then 0
    else
      var rest := MaxId(ws[1..]);
      if ws[0].id > rest then ws[0].id else rest
  }

  function NextId(ws: seq<Wallet>): int
  {
    MaxId(ws) + 1
  }

  /** `setSyncedWallets([...syncedWallets, newWallet])` with a fresh id. */
  function Synced(ws: seq<Wallet>, address: string, now: string): (r: seq<Wallet>)
    ensures |r| == |ws| + 1 && r[..|ws|] == ws
    ensures r[|ws|] == Wallet(NextId(ws), address, "Ethereum", now)
  {
    ws + [Wallet(NextId(ws), address, "Ethereum", now)]
  }

  /** The fresh id differs from every id in the list, so syncing keeps the
      ids distinct. */
  lemma SyncedKeepsIdsDistinct(ws: seq<Wallet>, address: string, now: string)
    requires DistinctIds(ws)
    ensures forall k :: 0 <= k < |ws| ==> ws[k].id != NextId(ws)
    ensures DistinctIds(Synced(ws, address, now))
  {
  }

  /** On a list numbered 1..n the corrected id is the one the page computes. */
  lemma {:induction false} NextIdOnConsecutive(ws: seq<Wallet>)
    requires Consecutive(ws)
    ensures NextId(ws) == |ws| + 1
    ensures Synced(ws, "", "") == AsWrittenSynced(ws, "", "")
  {
    MaxIdOfPrefixNumbering(ws, 0);
  }

  lemma {:induction false} MaxIdOfPrefixNumbering(ws: seq<Wallet>, offset: int)
    requires offset >= 0
    requires forall k :: 0 <= k < |ws| ==> ws[k].id == offset + k + 1
    ensures ws != [] ==> MaxId(ws) == offset + |ws|
  {
    if |ws| > 1 {
      MaxIdOfPrefixNumbering(ws[1..], offset + 1);
    }
  }

  // ---------------------------------------------------------------------------
  // Remove

  /** `syncedWallets.filter((wallet) => wallet.id !== id)`. */
  function Removed(ws: seq<Wallet>, id: int): seq<Wallet>
  {
    Filter(ws, (w: Wallet) => w.id != id)
  }

  /** Removing drops every wallet with that id and keeps the others, in
      order and as often as they occur; an id not in the list changes
      nothing; distinct ids stay distinct. */
  lemma RemovedSpec(ws: seq<Wallet>, id: int)
    ensures forall w :: w in Removed(ws, id) <==> w in ws && w.id != id
    ensures IsSubsequence(Removed(ws, id), ws)
    ensures (forall k :: 0 <= k < |ws| ==> ws[k].id != id) ==> Removed(ws, id) == ws
    ensures DistinctIds(ws) ==> DistinctIds(Removed(ws, id))
    ensures forall w :: multiset(Removed(ws, id))[w] == if w.id != id then multiset(ws)[w] else 0
  {
    RemovedCounts(ws, id);
    RemovedOrder(ws, id);
  }

  lemma RemovedCounts(ws: seq<Wallet>, id: int)
    ensures forall w :: multiset(Removed(ws, id))[w] == if w.id != id then multiset(ws)[w] else 0
    ensures forall w :: w in Removed(ws, id) <==> w in ws && w.id != id
  {
    var r := Removed(ws, id);
    FilterCounts(ws, (w: Wallet) => w.id != id);
    forall w ensures w in r <==> w in ws && w.id != id {
      assert w in r <==> w in multiset(r);
      assert w in ws <==> w in multiset(ws);
    }
  }

  lemma RemovedOrder(ws: seq<Wallet>, id: int)
    ensures IsSubsequence(Removed(ws, id), ws)
    ensures (forall k :: 0 <= k < |ws| ==> ws[k].id != id) ==> Removed(ws, id) == ws
    ensures DistinctIds(ws) ==> DistinctIds(Removed(ws, id))
  {
    var keep := (w: Wallet) => w.id != id;
    FilterIsSubsequence(ws, keep);
    if forall k :: 0 <= k < |ws| ==> ws[k].id != id {
      FilterKeepsAll(ws, keep);
    }
    if DistinctIds(ws) {
      SubsequenceKeepsDistinct(Removed(ws, id), ws);
    }
  }

  lemma {:induction false} SubsequenceKeepsDistinct(a: seq<Wallet>, b: seq<Wallet>)
    requires IsSubsequence(a, b) && DistinctIds(b)
    ensures DistinctIds(a)
  {
    if b != [] {
      if a != [] && a[0] == b[0] && IsSubsequence(a[1..], b[1..]) {
        SubsequenceKeepsDistinct(a[1..], b[1..]);
        SubsequenceMembers(a[1..], b[1..]);
        forall m | 1 <= m < |a| ensures a[0].id != a[m].id {
          assert a[1..][m - 1] in b[1..];
          var n :| 0 <= n < |b[1..]| && b[1..][n] == a[m];
          assert b[0].id != b[n + 1].id;
        }
        forall x, y | 0 <= x < y < |a| ensures a[x].id != a[y].id {
          if x > 0 {
            assert a[x] == a[1..][x - 1] && a[y] == a[1..][y - 1];
          }
        }
      } else {
        SubsequenceKeepsDistinct(a, b[1..]);
      }
    }
  }

  /** Syncing and then removing the new wallet gives back the list. */
  lemma SyncThenRemove(ws: seq<Wallet>, address: string, now: string)
    requires DistinctIds(ws)
    ensures Removed(Synced(ws, address, now), NextId(ws)) == ws
  {
    var keep := (w: Wallet) => w.id != NextId(ws);
    var w := Wallet(NextId(ws), address, "Ethereum", now);
    FilterAppend(ws, [w], keep);
    FilterKeepsAll(ws, keep);
  }

  // ---------------------------------------------------------------------------
  // The page state

  /** The page's state: the synced wallets, the address field and the busy
      flag of the submit button. */
  class WalletSyncPage {
    var wallets: seq<Wallet>
    var address: string
    var loading: bool

    ghost predicate Valid()
      reads this
    {
      DistinctIds(wallets)
    }

    constructor ()
      ensures wallets == [InitialWallet] && address == "" && !loading
      ensures Valid()
    {
      wallets := [InitialWallet];
      address := "";
      loading := false;
    }

    /** The input's `onChange`. */
    method SetAddress(a: string)
      modifies this
      ensures address == a && wallets == old(wallets) && loading == old(loading)
    {
      address := a;
    }

    /** Submitting the form. The input is `required`, so the browser does not
        submit an empty address; otherwise `handleSubmit` appends a wallet
        for the typed address, clears the field and ends not busy. */
    method Submit(now: string)
      requires Valid()
      modifies this
      ensures Valid()
      ensures old(address) == "" ==> wallets == old(wallets) && address == "" && loading == old(loading)
      ensures old(address) != "" ==>
        wallets == Synced(old(wallets), old(address), now) && address == "" && !loading
    {
      if address != "" {
        loading := true;
        SyncedKeepsIdsDistinct(wallets, address, now);
        wallets := Synced(wallets, address, now);
        address := "";
        loading := false;
      }
    }

    /** `handleRemoveWallet`. */
    method Remove(id: int)
      requires Valid()
      modifies this
      ensures Valid()
      ensures wallets == Removed(old(wallets), id)
      ensures address == old(address) && loading == old(loading)
    {
      RemovedSpec(wallets, id);
      wallets := Removed(wallets, id);
    }
  }
}
