/**
 * The level registry: a Python dict from upper-cased level names to level
 * values, kept as its insertion-ordered key list plus the mapping itself.
 */
module Registry {
  import opened Wrappers

  /**
   * A registry value: an int, or the text logging.getLevelName gives back for
   * a name it does not know ("Level <name>").
   */
  datatype LevelValue = Num(n: int) | Text(text: string)

  datatype Reg = Reg(keys: seq<string>, values: map<string, LevelValue>)

  predicate Distinct(s: seq<string>)
  {
    forall i, j :: 0 <= i < j < |s| ==> s[i] != s[j]
  }

  /** Each key is listed once, and the list and the mapping hold the same keys. */
  predicate Valid(r: Reg)
  {
    && Distinct(r.keys)
    && (forall k :: k in r.keys ==> k in r.values)
    && (forall k :: k in r.values ==> k in r.keys)
  }

  /** d[k]; None is the KeyError. */
  function Get(r: Reg, k: string): Option<LevelValue>
  {
    if k in r.values then Some(r.values[k]) else None
  }

  /** d[k] = v: a key already present keeps its place, a new key goes last. */
  function Set(r: Reg, k: string, v: LevelValue): Reg
  {
    Reg(if k in r.values then r.keys else r.keys + [k], r.values[k := v])
  }

  /** The assignments d[k] = v for each (k, v) of es, in order. */
  function Overlay(r: Reg, es: seq<(string, LevelValue)>): Reg
    decreases |es|
  {
    if |es| == 0 then r else Overlay(Set(r, es[0].0, es[0].1), es[1..])
  }

  /** The value of the last entry of es for key k, if there is one. */
  function LastWrite(es: seq<(string, LevelValue)>, k: string): Option<LevelValue>
    decreases |es|
  {
    if |es| == 0 then None
    else if es[|es| - 1].0 == k then Some(es[|es| - 1].1)
    else LastWrite(es[..|es| - 1], k)
  }

  function Names(es: seq<(string, LevelValue)>): seq<string>
    decreases |es|
  {
    if |es| == 0 then [] else [es[0].0] + Names(es[1..])
  }

  /** The elements of ks not in seen, each once, in the order they first occur. */
  function Novel(seen: seq<string>, ks: seq<string>): seq<string>
    decreases |ks|
  {
    if |ks| == 0 then []
    else if ks[0] in seen then Novel(seen, ks[1..])
    else [ks[0]] + Novel(seen + [ks[0]], ks[1..])
  }

  lemma SetValid(r: Reg, k: string, v: LevelValue)
    requires Valid(r)
    ensures Valid(Set(r, k, v))
  {
  }

  lemma {:induction false} OverlayValid(r: Reg, es: seq<(string, LevelValue)>)
    requires Valid(r)
    ensures Valid(Overlay(r, es))
    decreases |es|
  {
    if |es| > 0 {
      SetValid(r, es[0].0, es[0].1);
      OverlayValid(Set(r, es[0].0, es[0].1), es[1..]);
    }
  }

  lemma {:induction false} LastWriteCons(e: (string, LevelValue), es: seq<(string, LevelValue)>, k: string)
    ensures LastWrite([e] + es, k)
         == if LastWrite(es, k).Some? then LastWrite(es, k)
            else if e.0 == k then Some(e.1) else None
    decreases |es|
  {
    var s := [e] + es;
    if |es| > 0 {
      assert s[..|s| - 1] == [e] + es[..|es| - 1];
      assert s[|s| - 1] == es[|es| - 1];
      LastWriteCons(e, es[..|es| - 1], k);
    } else {
      assert s[..|s| - 1] == [];
    }
  }

  /** After the overlay, k holds the last value written to it, or else what it held before. */
  lemma {:induction false} OverlayGet(r: Reg, es: seq<(string, LevelValue)>, k: string)
    ensures Get(Overlay(r, es), k) == if LastWrite(es, k).Some? then LastWrite(es, k) else Get(r, k)
    decreases |es|
  {
    if |es| > 0 {
      OverlayGet(Set(r, es[0].0, es[0].1), es[1..], k);
      LastWriteCons(es[0], es[1..], k);
      assert [es[0]] + es[1..] == es;
    }
  }

  /** Which entry LastWrite picks: the last one whose key is k. */
  lemma {:induction false} LastWriteAt(es: seq<(string, LevelValue)>, j: int, k: string)
    requires 0 <= j < |es| && es[j].0 == k
    requires forall j' :: j < j' < |es| ==> es[j'].0 != k
    ensures LastWrite(es, k) == Some(es[j].1)
    decreases |es|
  {
    if j < |es| - 1 {
      LastWriteAt(es[..|es| - 1], j, k);
    }
  }

  lemma {:induction false} LastWriteNone(es: seq<(string, LevelValue)>, k: string)
    requires forall j :: 0 <= j < |es| ==> es[j].0 != k
    ensures LastWrite(es, k) == None
    decreases |es|
  {
    if |es| > 0 {
      LastWriteNone(es[..|es| - 1], k);
    }
  }

  lemma {:induction false} NovelSpec(seen: seq<string>, ks: seq<string>)
    ensures forall x :: x in Novel(seen, ks) <==> x in ks && x !in seen
    ensures Distinct(Novel(seen, ks))
    decreases |ks|
  {
    if |ks| > 0 {
      if ks[0] in seen {
        NovelSpec(seen, ks[1..]);
        assert ks == [ks[0]] + ks[1..];
      } else {
        NovelSpec(seen + [ks[0]], ks[1..]);
        assert ks == [ks[0]] + ks[1..];
        var n := Novel(seen + [ks[0]], ks[1..]);
        var m := [ks[0]] + n;
        forall i, j | 0 <= i < j < |m|
          ensures m[i] != m[j]
        {
          assert m[j] == n[j - 1] && n[j - 1] in n;
          if i > 0 {
            assert m[i] == n[i - 1];
          }
        }
      }
    }
  }

  /**
   * The keys after the overlay: the old keys in their old places, then each
   * new key once, in the order the entries first name it.
   */
  lemma {:induction false} OverlayKeys(r: Reg, es: seq<(string, LevelValue)>)
    requires Valid(r)
    ensures Overlay(r, es).keys == r.keys + Novel(r.keys, Names(es))
    decreases |es|
  {
    if |es| > 0 {
      var k := es[0].0;
      var r' := Set(r, k, es[0].1);
      SetValid(r, k, es[0].1);
      OverlayKeys(r', es[1..]);
      if k in r.keys {
        assert r'.keys == r.keys;
      } else {
        assert r'.keys == r.keys + [k];
        assert r.keys + ([k] + Novel(r.keys + [k], Names(es[1..])))
            == r.keys + [k] + Novel(r.keys + [k], Names(es[1..]));
      }
    }
  }

  /** Overwriting an existing key never moves it. */
  lemma OverlayKeepsPosition(r: Reg, es: seq<(string, LevelValue)>, i: int)
    requires Valid(r) && 0 <= i < |r.keys|
    ensures i < |Overlay(r, es).keys| && Overlay(r, es).keys[i] == r.keys[i]
  {
    OverlayKeys(r, es);
  }

  lemma {:induction false} NamesMembership(es: seq<(string, LevelValue)>, k: string)
    ensures k in Names(es) <==> exists j :: 0 <= j < |es| && es[j].0 == k
    decreases |es|
  {
    if |es| > 0 {
      NamesMembership(es[1..], k);
      if k in Names(es[1..]) {
        var j :| 0 <= j < |es[1..]| && es[1..][j].0 == k;
        assert es[j + 1].0 == k;
      }
      if exists j :: 0 <= j < |es| && es[j].0 == k {
        var j :| 0 <= j < |es| && es[j].0 == k;
        if j > 0 {
          assert es[1..][j - 1].0 == k;
        }
      }
    }
  }

  /** The keys after the overlay are exactly the old keys and the keys the entries name. */
  lemma OverlayKeySet(r: Reg, es: seq<(string, LevelValue)>, k: string)
    requires Valid(r)
    ensures k in Overlay(r, es).keys <==> k in r.keys || exists j :: 0 <= j < |es| && es[j].0 == k
  {
    OverlayKeys(r, es);
    NovelSpec(r.keys, Names(es));
    NamesMembership(es, k);
  }
}
