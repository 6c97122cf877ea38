/** The bounded memory of recently seen event ids: a set for lookups and a ring that evicts the oldest. */
module Dedup {

  // The last cap admitted ids.
  function Recent(admitted: seq<string>, cap: nat): seq<string> {
    if |admitted| <= cap then admitted else admitted[|admitted| - cap..]
  }

  function Answer(admitted: seq<string>, cap: nat, uid: string): bool {
    uid != "" && uid in Recent(admitted, cap)
  }

  function After(admitted: seq<string>, cap: nat, uid: string): seq<string> {
    if uid == "" || Answer(admitted, cap, uid) then admitted else admitted + [uid]
  }

  function AfterAll(cap: nat, uids: seq<string>): seq<string> {
    if uids == [] then [] else After(AfterAll(cap, uids[..|uids| - 1]), cap, uids[|uids| - 1])
  }

  // One of the last cap admissions was of this id.
  ghost predicate AdmittedLately(admitted: seq<string>, cap: nat, uid: string) {
    exists i :: 0 <= i < |admitted| && |admitted| - i <= cap && admitted[i] == uid
  }

  // An id was seen exactly if it was admitted lately and is not empty; exactly an id that was not is admitted now.
  lemma SeenIff(admitted: seq<string>, cap: nat, uid: string)
    ensures Answer(admitted, cap, uid) <==> uid != "" && AdmittedLately(admitted, cap, uid)
    ensures After(admitted, cap, uid) == if uid == "" || AdmittedLately(admitted, cap, uid) then admitted else admitted + [uid]
  {
    var base, recent := if |admitted| <= cap then 0 else |admitted| - cap, Recent(admitted, cap);
    assert forall k :: 0 <= k < |recent| ==> recent[k] == admitted[base + k];
    if AdmittedLately(admitted, cap, uid) {
      var i :| 0 <= i < |admitted| && |admitted| - i <= cap && admitted[i] == uid;
      assert recent[i - base] == uid;
    }
    if uid in recent {
      var k :| 0 <= k < |recent| && recent[k] == uid;
      assert admitted[base + k] == uid;
    }
  }

  // Between two admissions of one id lie at least cap admissions of others.
  ghost predicate Spaced(admitted: seq<string>, cap: nat) {
    forall i, j :: 0 <= i < j < |admitted| && admitted[i] == admitted[j] ==> j - i > cap
  }

  lemma AfterKeepsSpaced(admitted: seq<string>, cap: nat, uid: string)
    requires Spaced(admitted, cap)
    ensures Spaced(After(admitted, cap, uid), cap)
  {
    var n, recent := |admitted|, Recent(admitted, cap);
    if uid != "" && uid !in recent {
      forall i | 0 <= i < n && n - i <= cap ensures admitted[i] != uid {
        var base := if n <= cap then 0 else n - cap;
        assert recent[i - base] == admitted[i];
      }
    }
  }

  // Whatever ids arrive, an id is admitted again only after cap others were admitted, which are all
  // different from it and from each other.
  lemma {:induction false} RunSpaced(cap: nat, uids: seq<string>)
    ensures Spaced(AfterAll(cap, uids), cap)
  {
    if uids != [] {
      RunSpaced(cap, uids[..|uids| - 1]);
      AfterKeepsSpaced(AfterAll(cap, uids[..|uids| - 1]), cap, uids[|uids| - 1]);
    }
  }

  // No id that was never admitted before is turned away, and no empty one is ever remembered.
  lemma {:induction false} RunForgetsNothingNew(cap: nat, uids: seq<string>, uid: string)
    ensures uid in AfterAll(cap, uids) ==> uid in uids && uid != ""
    ensures uid in uids && uid != "" ==> uid in AfterAll(cap, uids)
  {
    if uids != [] {
      var front, last := uids[..|uids| - 1], uids[|uids| - 1];
      assert uids == front + [last];
      RunForgetsNothingNew(cap, front, uid);
      var a := AfterAll(cap, front);
      assert forall x :: x in Recent(a, cap) ==> x in a;
    }
  }

  class SeenCache {
    const cap: nat
    var known: set<string>
    var ring: seq<string>
    ghost var admitted: seq<string>

    ghost predicate Valid() reads this {
      && ring == Recent(admitted, cap)
      && known == (set u | u in ring)
      && Spaced(admitted, cap)
    }

    constructor (cap: nat)
      ensures Valid() && this.cap == cap && admitted == []
    {
      this.cap := cap;
      known, ring, admitted := {}, [], [];
    }

    method Seen(uid: string) returns (seen: bool)
      requires Valid()
      modifies this
      ensures Valid()
      ensures seen <==> uid != "" && AdmittedLately(old(admitted), cap, uid)
      ensures admitted == After(old(admitted), cap, uid)
    {
      SeenIff(admitted, cap, uid);
      if uid == "" { return false; }
      if uid in known { return true; }
      AfterKeepsSpaced(admitted, cap, uid);
      RingNoDup(admitted, cap);
      known := known + {uid};
      ring := ring + [uid];
      admitted := admitted + [uid];
      if |ring| > cap {
        var oldest := ring[0];
        ring := ring[1..];
        EvictOldest(old(ring), uid);
        known := known - {oldest};
      }
      assert ring == Recent(admitted, cap);
      return false;
    }
  }

  ghost predicate NoDup(s: seq<string>) { forall i, j :: 0 <= i < j < |s| ==> s[i] != s[j] }

  // The ring never holds an id twice, and never more than cap ids.
  lemma RingNoDup(admitted: seq<string>, cap: nat)
    requires Spaced(admitted, cap)
    ensures NoDup(Recent(admitted, cap)) && |Recent(admitted, cap)| <= cap
  {
    var r, base := Recent(admitted, cap), if |admitted| <= cap then 0 else |admitted| - cap;
    forall i, j | 0 <= i < j < |r| ensures r[i] != r[j] {
      assert r[i] == admitted[base + i] && r[j] == admitted[base + j];
    }
  }

  lemma EvictOldest(ring: seq<string>, uid: string)
    requires NoDup(ring) && uid !in ring
    ensures var r := ring + [uid];
            (set u | u in r[1..]) == (set u | u in ring) + {uid} - {r[0]}
  {
    var r := ring + [uid];
    forall i | 0 < i < |r| ensures r[i] != r[0] {
      if i < |ring| { assert ring[i] != ring[0]; } else { assert r[i] == uid && r[0] == ring[0] && ring[0] in ring; }
    }
    assert r == [r[0]] + r[1..];
    assert forall u :: u in r <==> u in ring || u == uid;
    assert r[0] !in r[1..];
  }
}
