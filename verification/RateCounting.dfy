/**
 Counting over a log of rate-limit decisions: how many hits on one key were
 admitted in a half-open interval of time. Both counters of the reference app
 and their combination are judged by this one measure.
 */
module RateCounting {
  import opened Common

  /** One decided hit. Times are integer milliseconds, as Date.now() yields. */
  datatype Outcome = Outcome(key: string, at: int, admitted: bool)

  predicate Counts(o: Outcome, key: string, lo: int, hi: int) {
    o.admitted && o.key == key && lo <= o.at < hi
  }

  /** Admitted hits on key with lo <= at < hi. */
  function AdmittedIn(log: seq<Outcome>, key: string, lo: int, hi: int): nat {
    if log == [] then 0
    else AdmittedIn(Init(log), key, lo, hi) + if Counts(Last(log), key, lo, hi) then 1 else 0
  }

  lemma {:induction false} AdmittedInSplits(log: seq<Outcome>, key: string, lo: int, mid: int, hi: int)
    requires lo <= mid <= hi
    ensures AdmittedIn(log, key, lo, hi) == AdmittedIn(log, key, lo, mid) + AdmittedIn(log, key, mid, hi)
  {
    if log != [] {
      AdmittedInSplits(Init(log), key, lo, mid, hi);
    }
  }

  lemma AdmittedInMonotone(log: seq<Outcome>, key: string, lo: int, hi: int, lo': int, hi': int)
    requires lo' <= lo && hi <= hi'
    ensures AdmittedIn(log, key, lo, hi) <= AdmittedIn(log, key, lo', hi')
  {
    if log != [] {
      AdmittedInMonotone(Init(log), key, lo, hi, lo', hi');
    }
  }

  /** An interval none of the log's hits on key fall into counts nothing. */
  lemma AdmittedInNothing(log: seq<Outcome>, key: string, lo: int, hi: int)
    requires forall i :: 0 <= i < |log| ==> !Counts(log[i], key, lo, hi)
    ensures AdmittedIn(log, key, lo, hi) == 0
  {
    if log != [] {
      AdmittedInNothing(Init(log), key, lo, hi);
    }
  }
}
