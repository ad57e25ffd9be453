/**
  The company record that the lead-enrichment pipeline passes from the source
  adapters through the merger to the scorer.

  In the Python program a record is a dictionary; a key may be present or
  absent, and the code distinguishes the two (`comp["domain"]` raises when the
  key is absent, `comp.get("signals", {})` supplies a default). Every optional
  key is therefore an `Option` slot here: `None` means "the key is absent".
 */
module Records {

  datatype Option<+T> = None | Some(value: T) {
    /** `dict.get(key, default)`: the value when present, the default otherwise. */
    function GetOr(default: T): T {
      match this
      case Some(v) => v
      case None => default
    }
  }

  /** The exception the program raises when it indexes a dictionary by a missing key. */
  datatype KeyError = KeyError(key: string)

  /** The outcome of an operation that may abort with a `KeyError`. */
  datatype Result<+T> = Ok(value: T) | Err(error: KeyError)

  datatype Contact = Contact(name: string, title: string, email: string, linkedin: string)

  datatype Record = Record(
    companyName: Option<string>,
    domain: Option<string>,                // the join key of the merge
    revenue: Option<int>,
    employeeCount: Option<int>,
    industry: Option<string>,
    contacts: Option<seq<Contact>>,
    fundingStage: Option<string>,
    signals: Option<map<string, bool>>,    // signal name -> flag
    source: Option<seq<string>>)           // names of the adapters that reported the company

  /** The signals of a record, `{}` when it has none (`comp.get("signals", {})`). */
  function SignalsOf(r: Record): map<string, bool> {
    r.signals.GetOr(map[])
  }

  /** The sources of a record, `[]` when it has none (`comp.get("source", [])`). */
  function SourcesOf(r: Record): seq<string> {
    r.source.GetOr([])
  }

  /**
    The part of a record that a merge never changes: every field except
    `signals`, `source` and `funding_stage`, which are blanked out here.
   */
  function Frozen(r: Record): Record {
    r.(fundingStage := None, signals := None, source := None)
  }

  /** No element occurs twice. */
  predicate Distinct<T(==)>(s: seq<T>) {
    forall i, j :: 0 <= i < j < |s| ==> s[i] != s[j]
  }
}
