/**
 * How the preset filter lists meet the properties the models actually have:
 * which names a Request or a Response can answer, and what record a log call
 * writes under each preset.
 */
module FilterCatalog {
  import opened Wrappers
  import opened PhpArrays
  import opened DefaultFilters
  import HttpRequest
  import HttpResponse
  import opened Loggers

  /**
   * Every FULL name but "ajax" is a Request or a Response property; "ajax" is
   * neither, since the Request property is "is_ajax".
   */
  lemma FullNamesAreFields()
    ensures forall n :: n in FULL && n != "ajax" ==> n in HttpRequest.RequestFields || n in HttpResponse.ResponseFields
    ensures "ajax" in FULL && "ajax" in REQUEST_ONLY
    ensures "ajax" !in HttpRequest.RequestFields && "ajax" !in HttpResponse.ResponseFields
    ensures "is_ajax" in HttpRequest.RequestFields
  {
  }

  lemma RequestOnlySide()
    ensures forall n :: n in REQUEST_ONLY ==> n !in HttpResponse.ResponseFields
  {
  }

  lemma StandardSides()
    ensures forall n :: n in STANDARD[..6] ==> n !in HttpResponse.ResponseFields
    ensures forall n :: n in STANDARD[6..] ==> n in HttpResponse.ResponseFields
  {
  }

  /** A list of request names followed by response names splits at the boundary. */
  lemma SidesAt(p: seq<string>, k: nat)
    requires k <= |p|
    requires forall i :: 0 <= i < k ==> p[i] !in HttpResponse.ResponseFields
    requires forall i :: k <= i < |p| ==> p[i] in HttpResponse.ResponseFields
    ensures RequestNames(p) == p[..k] && ResponseNames(p) == p[k..]
  {
    WhereUpTo(p, IsRequestName, k, |p|);
    WhereFrom(p, IsResponseName, k, |p|);
    assert p[..|p|] == p;
  }

  /** When the names before `k` are kept and the rest are not, a prefix keeps its first `k` names. */
  lemma {:induction false} WhereUpTo(p: seq<string>, keep: string -> bool, k: nat, n: nat)
    requires k <= |p| && n <= |p|
    requires forall i :: 0 <= i < k ==> keep(p[i])
    requires forall i :: k <= i < |p| ==> !keep(p[i])
    ensures NamesWhere(p[..n], keep) == p[..if n <= k then n else k]
  {
    if n > 0 {
      WhereUpTo(p, keep, k, n - 1);
      var q := p[..n];
      assert q[..|q| - 1] == p[..n - 1];
      assert q[|q| - 1] == p[n - 1];
      if n <= k {
        assert p[..n] == p[..n - 1] + [p[n - 1]];
      }
    }
  }

  /** When the names from `k` on are kept and the others are not, a prefix keeps its names from `k` on. */
  lemma {:induction false} WhereFrom(p: seq<string>, keep: string -> bool, k: nat, n: nat)
    requires k <= |p| && n <= |p|
    requires forall i :: 0 <= i < k ==> !keep(p[i])
    requires forall i :: k <= i < |p| ==> keep(p[i])
    ensures NamesWhere(p[..n], keep) == if n <= k then [] else p[k..n]
  {
    if n > 0 {
      WhereFrom(p, keep, k, n - 1);
      var q := p[..n];
      assert q[..|q| - 1] == p[..n - 1];
      assert q[|q| - 1] == p[n - 1];
      if n > k {
        assert p[k..n] == p[k..n - 1] + [p[n - 1]];
      }
    }
  }

  lemma StandardPresetSides(p: seq<string>)
    requires p == STANDARD
    ensures |p| == 8 && RequestNames(p) == p[..6] && ResponseNames(p) == p[6..]
  {
    StandardSides();
    SidesAt(p, 6);
  }

  lemma ResponseOnlySides(p: seq<string>)
    requires p == RESPONSE_ONLY
    ensures RequestNames(p) == p[..0] && ResponseNames(p) == p[0..]
  {
    assert p == HttpResponse.ResponseFields;
    SidesAt(p, 0);
  }

  lemma FullSides(p: seq<string>)
    requires p == FULL
    ensures |p| == 22 && RequestNames(p) == p[..19] && ResponseNames(p) == p[19..]
  {
    FullIsRequestThenResponse();
    RequestOnlySide();
    assert p[..19] == REQUEST_ONLY;
    assert p[19..] == HttpResponse.ResponseFields;
    SidesAt(p, 19);
  }

  lemma RequestOnlySides(p: seq<string>)
    requires p == REQUEST_ONLY
    ensures |p| == 19 && RequestNames(p) == p[..19] && ResponseNames(p) == p[19..]
  {
    RequestOnlySide();
    assert p[..19] == p;
    assert p[19..] == [];
    SidesAt(p, 19);
  }

  /**
   * Under each preset the keys of the merged request and response properties are
   * exactly the preset, in its order: no name is lost, reordered or repeated.
   */
  lemma PresetRecordKeys(p: seq<string>, facts: Facts, st: Snapshot, date: string)
    requires p == STANDARD || p == FULL || p == REQUEST_ONLY || p == RESPONSE_ONLY
    ensures KeysOf(ArrayMerge(RequestRecord(p, facts, st.memo, date), ResponseRecord(p, facts, st.code, st.headerLines))) == p
  {
    PresetsDistinct();
    var k: nat;
    if p == STANDARD {
      StandardPresetSides(p);
      k := 6;
    } else if p == RESPONSE_ONLY {
      ResponseOnlySides(p);
      k := 0;
    } else if p == FULL {
      FullSides(p);
      k := 19;
    } else {
      RequestOnlySides(p);
      k := 19;
    }
    RecordKeysAt(p, k, facts, st, date);
  }

  /** When the sides of `p` split at `k` and `p` repeats no name, the record keys are `p`. */
  lemma RecordKeysAt(p: seq<string>, k: nat, facts: Facts, st: Snapshot, date: string)
    requires k <= |p| && Distinct(p)
    requires RequestNames(p) == p[..k] && ResponseNames(p) == p[k..]
    ensures KeysOf(ArrayMerge(RequestRecord(p, facts, st.memo, date), ResponseRecord(p, facts, st.code, st.headerLines))) == p
  {
    assert Distinct(p[..k]) && Distinct(p[k..]);
    DedupOfDistinct(p[..k]);
    DedupOfDistinct(p[k..]);
    RecordLayout(p, facts, st, date);
    assert p == p[..k] + p[k..];
  }

  /**
   * Under FULL or REQUEST_ONLY the record holds null under "ajax": the Request
   * has no property of that name, whatever the X-Requested-With header says.
   */
  lemma AjaxLoggedAsNull(p: seq<string>, facts: Facts, st: Snapshot, date: string)
    requires p == FULL || p == REQUEST_ONLY
    ensures Get(ArrayMerge(RequestRecord(p, facts, st.memo, date), ResponseRecord(p, facts, st.code, st.headerLines)), "ajax")
            == Some(Null)
  {
    if p == FULL {
      FullSides(p);
    } else {
      RequestOnlySides(p);
    }
    AjaxIsRequestName(p);
    MissingNameAt(p, "ajax", facts, st, date);
  }

  lemma AjaxIsRequestName(p: seq<string>)
    requires p == FULL || p == REQUEST_ONLY
    ensures |p| >= 19 && "ajax" in p[..19] && "ajax" !in p[19..]
    ensures "ajax" != "filters" && "ajax" !in HttpRequest.RequestFields
  {
    assert p[17] == "ajax";
    FullIsRequestThenResponse();
  }

  /**
   * A request-side name the Request has no property for, absent from the
   * response names, is logged as null.
   */
  lemma MissingNameAt(p: seq<string>, n: string, facts: Facts, st: Snapshot, date: string)
    requires n in RequestNames(p) && n !in ResponseNames(p)
    requires n != "filters" && n !in HttpRequest.RequestFields
    ensures Get(ArrayMerge(RequestRecord(p, facts, st.memo, date), ResponseRecord(p, facts, st.code, st.headerLines)), n)
            == Some(Null)
  {
    var rn := RequestNames(p);
    var sn := ResponseNames(p);
    var f := RequestValue(facts, st.memo, date, rn);
    var g := ResponseValue(facts, st.code, st.headerLines, sn);
    ProjectGet(rn, f, n);
    HttpRequest.CapturedMissing(facts.request, date, st.memo, facts.json.decode, rn, n);
    ProjectKeys(sn, g);
    DedupProps(sn);
    MergeGet(Project(rn, f), Project(sn, g), n);
  }
}
