// MyCertificatesComponent: the student's certificates, at most one per
// course. The component walks the list once, keeping per course id the
// first certificate unless a later one carries a strictly newer issue date;
// the Map's insertion order fixes the output order.
module MyCertificates {
  import opened Wrappers

  /**
   * A certificate as the client receives it. `issued` is the time value of
   * `new Date(issuedDate)`, None when the date is missing or empty.
   */
  datatype CertificateView = CertificateView(id: int, courseId: int, courseTitle: string, issued: Option<int>)

  /** `cert.issuedDate && existing.issuedDate && certDate > existingDate`. */
  predicate Newer(cert: CertificateView, existing: CertificateView)
  {
    cert.issued.Some? && existing.issued.Some? && cert.issued.value > existing.issued.value
  }

  /** One step of the forEach: the certificate goes in when its course is new or it is strictly newer. */
  function KeepOne(m: map<int, CertificateView>, cert: CertificateView): map<int, CertificateView>
  {
    if cert.courseId !in m then m[cert.courseId := cert]
    else if Newer(cert, m[cert.courseId]) then m[cert.courseId := cert]
    else m
  }

  /** The Map's keys in insertion order after one step: a new course id goes at the end. */
  function AddKey(keys: seq<int>, k: int): seq<int>
  {
    if k in keys then keys else keys + [k]
  }

  /** The Map's contents after the forEach over `certs`. */
  function Kept(certs: seq<CertificateView>): map<int, CertificateView>
  {
    if |certs| == 0 then map[] else KeepOne(Kept(certs[..|certs| - 1]), certs[|certs| - 1])
  }

  /** The Map's keys in insertion order: each course id where it first occurs. */
  function Keys(certs: seq<CertificateView>): seq<int>
  {
    if |certs| == 0 then [] else AddKey(Keys(certs[..|certs| - 1]), certs[|certs| - 1].courseId)
  }

  /** Every course of the input has an entry, and each entry is an input certificate of that course. */
  lemma {:induction false} KeptCoversInput(certs: seq<CertificateView>)
    ensures forall i :: 0 <= i < |certs| ==> certs[i].courseId in Kept(certs)
    ensures forall k :: k in Kept(certs) ==> Kept(certs)[k] in certs && Kept(certs)[k].courseId == k
  {
    if |certs| > 0 {
      var n := |certs| - 1;
      var prefix := certs[..n];
      KeptCoversInput(prefix);
      assert forall i :: 0 <= i < n ==> prefix[i] == certs[i];
      assert forall c :: c in prefix ==> c in certs;
    }
  }

  /** The keys are distinct, cover the input's courses and are the Map's keys. */
  lemma {:induction false} KeysMatchKept(certs: seq<CertificateView>)
    ensures forall i, j :: 0 <= i < j < |Keys(certs)| ==> Keys(certs)[i] != Keys(certs)[j]
    ensures forall i :: 0 <= i < |certs| ==> certs[i].courseId in Keys(certs)
    ensures forall k :: k in Keys(certs) <==> k in Kept(certs)
  {
    if |certs| > 0 {
      var n := |certs| - 1;
      var prefix := certs[..n];
      KeysMatchKept(prefix);
      assert forall i :: 0 <= i < n ==> prefix[i] == certs[i];
    }
  }

  /** Both follow the forEach one certificate at a time. */
  lemma {:induction false} Snoc(prefix: seq<CertificateView>, cert: CertificateView)
    ensures Kept(prefix + [cert]) == KeepOne(Kept(prefix), cert)
    ensures Keys(prefix + [cert]) == AddKey(Keys(prefix), cert.courseId)
  {
    var c := prefix + [cert];
    assert c[..|prefix|] == prefix;
    assert c[|prefix|] == cert;
  }

  /** Array.from(map.values()): the values in key order. */
  function Values(keys: seq<int>, m: map<int, CertificateView>): (r: seq<CertificateView>)
    requires forall i :: 0 <= i < |keys| ==> keys[i] in m
    ensures |r| == |keys| && forall i :: 0 <= i < |keys| ==> r[i] == m[keys[i]]
  {
    if |keys| == 0 then [] else [m[keys[0]]] + Values(keys[1..], m)
  }

  /**
   * removeDuplicateCertificates: one certificate per course id, in order of
   * each course's first appearance, every one taken from the input, and no
   * course of the input dropped.
   */
  function Deduplicated(certs: seq<CertificateView>): (r: seq<CertificateView>)
    ensures |r| == |Keys(certs)| && forall i :: 0 <= i < |r| ==> r[i].courseId == Keys(certs)[i]
    ensures forall i, j :: 0 <= i < j < |r| ==> r[i].courseId != r[j].courseId
    ensures forall x :: x in r ==> x in certs
    ensures forall i :: 0 <= i < |certs| ==> exists x :: x in r && x.courseId == certs[i].courseId
  {
    var keys := Keys(certs);
    var m := Kept(certs);
    KeptCoversInput(certs);
    KeysMatchKept(certs);
    assert forall i :: 0 <= i < |keys| ==> keys[i] in m;
    var r := Values(keys, m);
    assert forall i :: 0 <= i < |r| ==> r[i] in certs && r[i].courseId == keys[i];
    forall i | 0 <= i < |certs| ensures exists x :: x in r && x.courseId == certs[i].courseId {
      var j :| 0 <= j < |keys| && keys[j] == certs[i].courseId;
      assert r[j] in r;
    }
    r
  }

  /**
   * When every certificate carries a date, the one kept for a course has
   * the latest date of that course.
   */
  lemma {:induction false} KeptIsLatest(certs: seq<CertificateView>, c: CertificateView)
    requires forall x :: x in certs ==> x.issued.Some?
    requires c in certs
    ensures c.courseId in Kept(certs) && Kept(certs)[c.courseId].issued.Some?
    ensures Kept(certs)[c.courseId].issued.value >= c.issued.value
  {
    KeptCoversInput(certs);
    var n := |certs| - 1;
    assert forall x :: x in certs[..n] ==> x in certs;
    KeptCoversInput(certs[..n]);
    if c in certs[..n] {
      KeptIsLatest(certs[..n], c);
    } else {
      assert c == certs[n];
    }
  }

  /** A later certificate with an equal or missing date never replaces the first one. */
  lemma {:induction false} FirstKeptOnTie(a: CertificateView, b: CertificateView)
    requires a.courseId == b.courseId
    requires b.issued.None? || a.issued.None? || b.issued == a.issued
    ensures Deduplicated([a, b]) == [a]
  {
    assert [a, b][..1] == [a] && [a][..0] == [];
    assert Kept([a]) == map[a.courseId := a];
    assert Kept([a, b]) == map[a.courseId := a];
    assert Keys([a]) == [a.courseId];
    assert Keys([a, b]) == [a.courseId];
  }

  class MyCertificatesComponent {
    var certificates: seq<CertificateView>
    var loading: bool
    var error: string

    constructor()
      ensures certificates == [] && loading && error == ""
    {
      certificates := [];
      loading := true;
      error := "";
    }

    /**
     * loadCertificates with the response: a list is de-duplicated and
     * shown; a failure sets the error text and keeps the shown list.
     */
    method LoadCertificates(response: Option<seq<CertificateView>>)
      modifies this
      ensures !loading
      ensures response.Some? ==> certificates == Deduplicated(response.value) && error == old(error)
      ensures response.None? ==> certificates == old(certificates) && error == "Failed to load certificates"
    {
      loading := true;
      if response.Some? {
        certificates := RemoveDuplicateCertificates(response.value);
      } else {
        error := "Failed to load certificates";
      }
      loading := false;
    }

    /** The forEach over the response, updating the Map in place. */
    static method RemoveDuplicateCertificates(certs: seq<CertificateView>) returns (r: seq<CertificateView>)
      ensures r == Deduplicated(certs)
    {
      var m: map<int, CertificateView> := map[];
      var keys: seq<int> := [];
      var i := 0;
      while i < |certs|
        invariant 0 <= i <= |certs|
        invariant m == Kept(certs[..i]) && keys == Keys(certs[..i])
      {
        var cert := certs[i];
        assert certs[..i + 1] == certs[..i] + [cert];
        Snoc(certs[..i], cert);
        KeysMatchKept(certs[..i]);
        if cert.courseId !in m {
          m := m[cert.courseId := cert];
          keys := keys + [cert.courseId];
        } else {
          var existing := m[cert.courseId];
          if cert.issued.Some? && existing.issued.Some? && cert.issued.value > existing.issued.value {
            m := m[cert.courseId := cert];
          }
        }
        i := i + 1;
      }
      assert certs[..i] == certs;
      KeysMatchKept(certs);
      r := Values(keys, m);
    }
  }
}
