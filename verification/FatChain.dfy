/**
 Cluster chains in the file allocation table (kernel/fat32.c). The table is a sequence of entries indexed
 by cluster number; a sector of the table holds 128 of them. Clusters 2 to cnt + 1 exist.
 */
module FatTable {

  const FAT32_BAD: nat := 0x0fff_fff7
  const FAT32_EOC: nat := 0x0fff_fff8
  const FAT32_EOF: nat := 0x0fff_ffff

  /** fat_sec_of_clus for the first table, and fat_offset_of_clus. */
  function FatSec(cluster: nat, rsvd: nat): nat { rsvd + 4 * cluster / 512 }

  function FatOffset(cluster: nat): nat { 4 * cluster % 512 }

  /** The j-th entry of the i-th sector of the table belongs to cluster 128 * i + j. */
  lemma EntryPlace(i: nat, j: nat, rsvd: nat)
    requires j < 128
    ensures FatSec(128 * i + j, rsvd) == rsvd + i && FatOffset(128 * i + j) == 4 * j
  {
  }

  predicate InRange(c: nat, cnt: nat) { 2 <= c < cnt + 2 }

  /** read_fat; cluster is at least 2. */
  function ReadFat(fat: seq<nat>, cnt: nat, cluster: nat): nat
    requires cnt + 2 <= |fat|
  {
    if cluster >= FAT32_EOC then cluster else if cluster > cnt + 1 then 0 else fat[cluster]
  }

  /** chain follows the table from its first cluster to an end-of-chain mark. */
  ghost predicate IsChain(fat: seq<nat>, cnt: nat, chain: seq<nat>) {
    && cnt + 2 <= |fat| && cnt + 2 <= FAT32_BAD && |chain| > 0
    && (forall i :: 0 <= i < |chain| ==> InRange(chain[i], cnt))
    && (forall i :: 0 <= i < |chain| - 1 ==> fat[chain[i]] == chain[i + 1])
    && fat[chain[|chain| - 1]] >= FAT32_EOC
  }

  /** A chain is a cluster that exists, and whose entry ends the chain or leads on to one. */
  lemma ChainIs(fat: seq<nat>, cnt: nat, chain: seq<nat>)
    requires cnt + 2 <= |fat| && cnt + 2 <= 0x0fff_fff7
    ensures IsChain(fat, cnt, chain) <==>
            chain != [] && 2 <= chain[0] < cnt + 2 &&
            if |chain| == 1 then fat[chain[0]] >= 0x0fff_fff8
            else fat[chain[0]] == chain[1] && IsChain(fat, cnt, chain[1..])
  {
    if |chain| > 1 && 2 <= chain[0] < cnt + 2 && fat[chain[0]] == chain[1] && IsChain(fat, cnt, chain[1..]) {
      var rest := chain[1..];
      assert forall i :: 0 < i < |chain| ==> chain[i] == rest[i - 1];
      assert forall i :: 0 <= i < |chain| - 1 ==> fat[chain[i]] == chain[i + 1];
    }
  }

  lemma ChainTail(fat: seq<nat>, cnt: nat, chain: seq<nat>, k: nat)
    requires IsChain(fat, cnt, chain) && k < |chain|
    ensures IsChain(fat, cnt, chain[k..])
  {
  }

  lemma ChainEnds(fat: seq<nat>, cnt: nat, chain: seq<nat>)
    requires IsChain(fat, cnt, chain)
    ensures InRange(chain[0], cnt) && (|chain| == 1 <==> fat[chain[0]] >= FAT32_EOC)
  {
    assert |chain| > 1 ==> InRange(chain[1], cnt);
  }

  /** The table and the first cluster determine the chain. */
  lemma {:induction false} ChainUnique(fat: seq<nat>, cnt: nat, a: seq<nat>, b: seq<nat>)
    requires IsChain(fat, cnt, a) && IsChain(fat, cnt, b) && a[0] == b[0]
    ensures a == b
  {
    if |a| > 1 && |b| > 1 {
      assert a[1..][0] == b[1..][0];
      ChainUnique(fat, cnt, a[1..], b[1..]);
      assert a == [a[0]] + a[1..] && b == [b[0]] + b[1..];
    } else {
      ChainEnds(fat, cnt, a);
      ChainEnds(fat, cnt, b);
    }
  }

  /** No chain runs into itself. */
  lemma ChainAcyclic(fat: seq<nat>, cnt: nat, chain: seq<nat>, i: nat, j: nat)
    requires IsChain(fat, cnt, chain) && i < j < |chain|
    ensures chain[i] != chain[j]
  {
    if chain[i] == chain[j] {
      ChainTail(fat, cnt, chain, i);
      ChainTail(fat, cnt, chain, j);
      ChainUnique(fat, cnt, chain[i..], chain[j..]);
      assert false;
    }
  }

  /** A chain that no write touches stays one. */
  lemma ChainKept(fat: seq<nat>, fat': seq<nat>, cnt: nat, chain: seq<nat>)
    requires IsChain(fat, cnt, chain) && |fat'| == |fat| && forall i :: 0 <= i < |chain| ==>
        fat'[chain[i]] == fat[chain[i]]
    ensures IsChain(fat', cnt, chain)
  {
  }

  // ----- all files together -----

  /** The chains of all files; an empty file has none. */
  type Files = map<nat, seq<nat>>

  predicate Owns(files: Files, f: nat, c: nat) { f in files && c in files[f] }

  /** Chains are well formed and disjoint, and every cluster is free, bad or in a file. */
  ghost predicate Disciplined(fat: seq<nat>, cnt: nat, files: Files) {
    && cnt + 2 <= |fat| && cnt + 2 <= FAT32_BAD && fat[0] != 0 && fat[1] != 0
    && (forall f :: f in files && files[f] != [] ==> IsChain(fat, cnt, files[f]))
    && (forall f: nat, g: nat, c: nat :: Owns(files, f, c) && Owns(files, g, c) ==> f == g)
    && (forall c: nat :: InRange(c, cnt) && fat[c] != 0 && fat[c] != FAT32_BAD ==> exists f: nat :: Owns(files, f, c))
  }

  function FreeClusters(fat: seq<nat>, cnt: nat): set<nat>
    requires cnt + 2 <= |fat|
  {
    set c | 2 <= c < cnt + 2 && fat[c] == 0
  }

  lemma OwnedNotFree(fat: seq<nat>, cnt: nat, files: Files, f: nat, c: nat)
    requires Disciplined(fat, cnt, files) && Owns(files, f, c)
    ensures InRange(c, cnt) && fat[c] != 0 && fat[c] != FAT32_BAD
  {
    var chain := files[f];
    var i :| 0 <= i < |chain| && chain[i] == c;
    assert InRange(chain[i], cnt);
    if i < |chain| - 1 {
      assert fat[chain[i]] == chain[i + 1] && InRange(chain[i + 1], cnt);
    }
  }

  /** Allocation as meant: a free cluster k is marked and handed out; it becomes the end of a file's chain. */
  function Extended(fat: seq<nat>, chain: seq<nat>, k: nat): seq<nat>
    requires k < |fat| && (chain != [] ==> chain[|chain| - 1] < |fat|)
  {
    var marked := fat[k := FAT32_EOF];
    if chain == [] then marked else marked[chain[|chain| - 1] := k]
  }

  lemma ExtendChain(fat: seq<nat>, cnt: nat, chain: seq<nat>, k: nat)
    requires chain != [] ==> IsChain(fat, cnt, chain)
    requires cnt + 2 <= |fat| && cnt + 2 <= FAT32_BAD && InRange(k, cnt) && k !in chain
    ensures chain != [] ==> chain[|chain| - 1] < |fat|
    ensures IsChain(Extended(fat, chain, k), cnt, chain + [k])
    ensures forall c :: 0 <= c < |fat| && c !in chain && c != k ==> Extended(fat, chain, k)[c] == fat[c]
  {
    if chain != [] {
      var last := |chain| - 1;
      assert InRange(chain[last], cnt) && chain[last] in chain;
      var fat' := Extended(fat, chain, k);
      forall i | 0 <= i < |chain|
        ensures InRange((chain + [k])[i], cnt) && fat'[(chain + [k])[i]] == (chain + [k])[i + 1]
      {
        assert chain[i] in chain && InRange(chain[i], cnt);
        if i < last {
          ChainAcyclic(fat, cnt, chain, i, last);
        }
      }
    }
  }

  /** Allocating and growing keep the chains apart, and use up exactly cluster k. */
  lemma ExtendDisciplined(fat: seq<nat>, cnt: nat, files: Files, f: nat, k: nat)
    requires Disciplined(fat, cnt, files) && f in files && InRange(k, cnt) && fat[k] == 0
    ensures k !in files[f] && (files[f] != [] ==> files[f][|files[f]| - 1] < |fat|)
    ensures Disciplined(Extended(fat, files[f], k), cnt, files[f := files[f] + [k]])
    ensures FreeClusters(Extended(fat, files[f], k), cnt) == FreeClusters(fat, cnt) - {k}
  {
    hide IsChain, Extended;
    assert forall g: nat :: !Owns(files, g, k) by {
      forall g: nat | Owns(files, g, k) ensures false { OwnedNotFree(fat, cnt, files, g, k); }
    }
    assert k in files[f] ==> Owns(files, f, k);
    var chain := files[f];
    ExtendChain(fat, cnt, chain, k);
    var fat' := Extended(fat, chain, k);
    var files' := files[f := chain + [k]];
    if chain != [] {
      assert Owns(files, f, chain[|chain| - 1]);
      OwnedNotFree(fat, cnt, files, f, chain[|chain| - 1]);
    }
    ExtendLength(fat, chain, k);
    forall g | g in files' && files'[g] != []
      ensures IsChain(fat', cnt, files'[g])
    {
      if g != f {
        assert !Owns(files, g, k);
        ChainApart(fat, cnt, files, f, g, k, fat');
      }
    }
    forall g: nat, c: nat
      ensures Owns(files', g, c) <==> Owns(files, g, c) || (g == f && c == k)
    {
      OwnsExtended(files, f, k, g, c);
    }
    forall c: nat | InRange(c, cnt) && fat'[c] != 0 && fat'[c] != FAT32_BAD
      ensures exists g: nat :: Owns(files', g, c)
    {
      if c == k || c in chain {
        assert Owns(files', f, c);
      } else {
        var g :| Owns(files, g, c);
        assert Owns(files', g, c);
      }
    }
    forall c: nat | InRange(c, cnt)
      ensures fat'[c] == 0 <==> fat[c] == 0 && c != k
    {
      if c in chain {
        OwnedNotFree(fat, cnt, files, f, c);
      }
      if Owns(files', f, c) {
        ChainNotFree(fat', cnt, chain + [k], c);
      }
    }
    assert FreeClusters(fat', cnt) == FreeClusters(fat, cnt) - {k};
  }

  lemma ExtendLength(fat: seq<nat>, chain: seq<nat>, k: nat)
    requires k < |fat| && (chain != [] ==> chain[|chain| - 1] < |fat|)
    ensures |Extended(fat, chain, k)| == |fat|
    ensures k > 1 && (chain != [] ==> chain[|chain| - 1] > 1) && |fat| > 1 ==>
        Extended(fat, chain, k)[0] == fat[0] && Extended(fat, chain, k)[1] == fat[1]
  {
  }

  lemma ChainNotFree(fat: seq<nat>, cnt: nat, chain: seq<nat>, c: nat)
    requires IsChain(fat, cnt, chain) && c in chain
    ensures InRange(c, cnt) && fat[c] != 0
  {
    var i :| 0 <= i < |chain| && chain[i] == c;
    assert InRange(chain[i], cnt);
    if i < |chain| - 1 {
      assert fat[chain[i]] == chain[i + 1] && InRange(chain[i + 1], cnt);
    }
  }

  lemma ChainApart(fat: seq<nat>, cnt: nat, files: Files, f: nat, g: nat, k: nat, fat': seq<nat>)
    requires Disciplined(fat, cnt, files) && f in files && g in files && f != g && files[g] != [] && k !in files[g]
        && |fat'| == |fat|
    requires forall c :: 0 <= c < |fat| && c !in files[f] && c != k ==> fat'[c] == fat[c]
    ensures IsChain(fat', cnt, files[g])
  {
    var chain := files[g];
    forall i | 0 <= i < |chain|
      ensures fat'[chain[i]] == fat[chain[i]]
    {
      assert Owns(files, g, chain[i]);
      OneOwner(fat, cnt, files, f, g, chain[i]);
    }
    ChainKept(fat, fat', cnt, chain);
  }

  lemma OwnsExtended(files: Files, f: nat, k: nat, g: nat, c: nat)
    requires f in files
    ensures Owns(files[f := files[f] + [k]], g, c) <==> Owns(files, g, c) || (g == f && c == k)
  {
    var t := files[f] + [k];
    if c in files[f] {
      var i :| 0 <= i < |files[f]| && files[f][i] == c;
      assert t[i] == c;
    }
    assert t[|files[f]|] == k;
  }

  // ----- etrunc -----

  /** The table with the clusters of a chain freed. */
  function Cleared(fat: seq<nat>, chain: seq<nat>): seq<nat>
    requires forall i :: 0 <= i < |chain| ==> chain[i] < |fat|
  {
    seq(|fat|, c requires 0 <= c < |fat| => if c in chain then 0 else fat[c])
  }

  /** Truncating file f frees exactly its chain. */
  lemma TruncDisciplined(fat: seq<nat>, cnt: nat, files: Files, f: nat)
    requires Disciplined(fat, cnt, files) && f in files && files[f] != []
    ensures forall i :: 0 <= i < |files[f]| ==> InRange(files[f][i], cnt)
    ensures Disciplined(Cleared(fat, files[f]), cnt, files[f := []])
    ensures FreeClusters(Cleared(fat, files[f]), cnt) == FreeClusters(fat, cnt) + (set c | c in files[f])
  {
    hide IsChain, Cleared;
    var chain := files[f];
    forall c | c in chain
      ensures InRange(c, cnt)
    {
      assert Owns(files, f, c);
      OwnedNotFree(fat, cnt, files, f, c);
    }
    assert forall i :: 0 <= i < |chain| ==> chain[i] in chain;
    var fat' := Cleared(fat, chain);
    ClearedAt(fat, chain);
    var files' := files[f := []];
    forall g: nat, c: nat
      ensures Owns(files', g, c) <==> Owns(files, g, c) && g != f
    {
    }
    forall g | g in files' && files'[g] != []
      ensures IsChain(fat', cnt, files'[g])
    {
      OthersUncleared(fat, cnt, files, f, g);
    }
    ClearedAccounted(fat, cnt, files, f, files');
    assert fat'[0] == fat[0] && fat'[1] == fat[1];
  }

  lemma ClearedAt(fat: seq<nat>, chain: seq<nat>)
    requires forall i :: 0 <= i < |chain| ==> chain[i] < |fat|
    ensures |Cleared(fat, chain)| == |fat|
    ensures forall c {:trigger Cleared(fat, chain)[c]} :: 0 <= c < |fat| ==>
        Cleared(fat, chain)[c] == if c in chain then 0 else fat[c]
  {
  }

  lemma ClearedAccounted(fat: seq<nat>, cnt: nat, files: Files, f: nat, files': Files)
    requires files' == files[f := []]
    requires Disciplined(fat, cnt, files) && f in files && forall i :: 0 <= i < |files[f]| ==> files[f][i] < |fat|
    ensures |Cleared(fat, files[f])| == |fat|
    ensures forall c: nat :: InRange(c, cnt) && Cleared(fat, files[f])[c] != 0
                              && Cleared(fat, files[f])[c] != FAT32_BAD ==>
              exists g: nat :: Owns(files', g, c)
  {
    hide IsChain, Cleared;
    ClearedAt(fat, files[f]);
    var fat' := Cleared(fat, files[f]);
    forall c: nat | InRange(c, cnt) && fat'[c] != 0 && fat'[c] != FAT32_BAD
      ensures exists g: nat :: Owns(files', g, c)
    {
      var g: nat :| Owns(files, g, c);
      assert Owns(files', g, c);
    }
  }

  lemma OneOwner(fat: seq<nat>, cnt: nat, files: Files, f: nat, g: nat, c: nat)
    requires Disciplined(fat, cnt, files)
    ensures Owns(files, f, c) && Owns(files, g, c) ==> f == g
  {
    hide IsChain;
  }

  lemma OthersUncleared(fat: seq<nat>, cnt: nat, files: Files, f: nat, g: nat)
    requires Disciplined(fat, cnt, files) && f in files && g in files && f != g && files[g] != []
    requires forall i :: 0 <= i < |files[f]| ==> files[f][i] < |fat|
    ensures IsChain(Cleared(fat, files[f]), cnt, files[g])
  {
    var chain := files[g];
    forall i | 0 <= i < |chain|
      ensures Cleared(fat, files[f])[chain[i]] == fat[chain[i]]
    {
      assert Owns(files, g, chain[i]);
      assert chain[i] in files[f] ==> Owns(files, f, chain[i]);
    }
    ChainKept(fat, Cleared(fat, files[f]), cnt, chain);
  }

  // ----- allocation as written -----

  /** The first entry that alloc_clus finds free; its scan starts at entry 0. */
  ghost predicate IsFirstFree(fat: seq<nat>, k: nat) {
    k < |fat| && fat[k] == 0 && forall i :: 0 <= i < k ==> fat[i] != 0
  }

  /** As written, alloc_clus marks entry k and returns cluster k + 2. */
  function AsWritten(fat: seq<nat>, k: nat): (seq<nat>, nat)
    requires k < |fat|
  {
    (fat[k := FAT32_EOF], k + 2)
  }

  /** The cluster returned is recorded as used afterwards exactly if it was in use before. */
  lemma AsWrittenNeverAllocates(fat: seq<nat>, k: nat)
    requires IsFirstFree(fat, k) && k + 2 < |fat|
    ensures var (fat', r) := AsWritten(fat, k);
            r != k && (fat'[r] != 0 <==> fat[r] != 0)
  {
  }

  /** On no disciplined volume does it give an empty file a cluster of its own. */
  lemma AsWrittenNotDisciplined(fat: seq<nat>, cnt: nat, files: Files, f: nat, k: nat)
    requires Disciplined(fat, cnt, files) && f in files && files[f] == [] && IsFirstFree(fat, k)
    ensures !Disciplined(AsWritten(fat, k).0, cnt, files[f := [AsWritten(fat, k).1]])
  {
    var (fat', r) := AsWritten(fat, k);
    var files' := files[f := [r]];
    if Disciplined(fat', cnt, files') {
      assert files'[f] == [r] && IsChain(fat', cnt, [r]);
      assert InRange([r][0], cnt) && fat'[[r][0]] >= FAT32_EOC;
      assert fat[r] == fat'[r];
      var g: nat :| Owns(files, g, r);
      assert Owns(files', g, r) && Owns(files', f, r);
      assert false;
    }
  }

  /** Nor can a file with clusters grow by one on such a volume: the table that reloc_clus leaves is never in order. */
  lemma AsWrittenCannotGrow(fat: seq<nat>, cnt: nat, files: Files, f: nat, k: nat)
    requires Disciplined(fat, cnt, files) && f in files && files[f] != [] && IsFirstFree(fat, k)
    ensures files[f][|files[f]| - 1] < |fat|
    ensures var (fat', r) := AsWritten(fat, k);
            !Disciplined(fat'[files[f][|files[f]| - 1] := r], cnt, files[f := files[f] + [r]])
  {
    var (fat', r) := AsWritten(fat, k);
    var n := |files[f]|;
    assert InRange(files[f][n - 1], cnt);
    var fat2, files2, ch := fat'[files[f][n - 1] := r], files[f := files[f] + [r]], files[f] + [r];
    if Disciplined(fat2, cnt, files2) {
      assert files2[f] == ch && IsChain(fat2, cnt, ch);
      assert InRange(ch[n], cnt) && fat2[ch[n]] >= FAT32_EOC;
      forall i | 0 <= i < n
        ensures files[f][i] != r
      {
        assert ch[i] == files[f][i];
        ChainAcyclic(fat2, cnt, ch, i, n);
      }
      assert fat2[r] == fat[r];
      var g: nat :| Owns(files, g, r);
      assert Owns(files2, g, r) && Owns(files2, f, r);
      assert false;
    }
  }

  /** A volume of three clusters: 2 free, 3 and 4 holding a file each. The second file's cluster is handed out. */
  lemma AsWrittenExample()
    ensures var fat, files := [FAT32_EOF, FAT32_EOF, 0, FAT32_EOF, FAT32_EOF], map[0 := [3], 1 := [4], 2 := []];
            Disciplined(fat, 3, files) && IsFirstFree(fat, 2) && AsWritten(fat, 2).1 == 4 && Owns(files, 1, 4)
  {
    var fat, files: Files := [FAT32_EOF, FAT32_EOF, 0, FAT32_EOF, FAT32_EOF], map[0 := [3], 1 := [4], 2 := []];
    assert Owns(files, 0, 3) && Owns(files, 1, 4);
    assert IsChain(fat, 3, [3]) && IsChain(fat, 3, [4]);
    forall f: nat, c: nat | Owns(files, f, c)
      ensures f + 3 == c
    {
    }
  }
}
