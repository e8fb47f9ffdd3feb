/**
 * The request side shared by both forms: the `FormData` buffer that the
 * handlers append to in place, the request they hand to `fetch`, the reply
 * that comes back, and what the user sees.
 */
module Multipart {
  import opened Wrappers

  /** A multipart field is a plain text value or a file descriptor. A file
      descriptor's `uri` may be `undefined`. */
  datatype FieldValue =
    | Text(text: string)
    | FileRef(uri: Option<string>, name: string, mimeType: string)

  datatype Part = Part(key: string, value: FieldValue)

  /** Whether a field named `key` was appended. */
  predicate Has(parts: seq<Part>, key: string) {
    exists i :: 0 <= i < |parts| && parts[i].key == key
  }

  /** `formData.get(key)`: the value first appended under `key`. */
  function Get(parts: seq<Part>, key: string): (r: Option<FieldValue>)
    ensures r.Some? <==> Has(parts, key)
    ensures r.Some? ==> exists i :: 0 <= i < |parts| && parts[i] == Part(key, r.value) &&
                                   forall j :: 0 <= j < i ==> parts[j].key != key
  {
    if parts == [] then None
    else if parts[0].key == key then Some(parts[0].value)
    else
      var r := Get(parts[1..], key);
      assert Has(parts[1..], key) ==> Has(parts, key) by {
        if Has(parts[1..], key) {
          var i :| 0 <= i < |parts[1..]| && parts[1..][i].key == key;
          assert parts[i + 1].key == key;
        }
      }
      assert Has(parts, key) ==> Has(parts[1..], key) by {
        if Has(parts, key) {
          var i :| 0 <= i < |parts| && parts[i].key == key;
          assert i > 0 && parts[1..][i - 1].key == key;
        }
      }
      assert r.Some? ==> exists i :: 0 <= i < |parts| && parts[i] == Part(key, r.value) &&
                                     forall j :: 0 <= j < i ==> parts[j].key != key by {
        if r.Some? {
          var i :| 0 <= i < |parts[1..]| && parts[1..][i] == Part(key, r.value) &&
                   forall j :: 0 <= j < i ==> parts[1..][j].key != key;
          assert parts[i + 1] == Part(key, r.value);
          assert forall j :: 0 <= j < i + 1 ==> parts[j].key != key by {
            forall j | 0 <= j < i + 1 ensures parts[j].key != key {
              if j > 0 { assert parts[j] == parts[1..][j - 1]; }
            }
          }
        }
      }
      r
  }

  /** `new FormData()`, filled in place by `append`. */
  class FormData {
    var parts: seq<Part>

    constructor ()
      ensures parts == []
    {
      parts := [];
    }

    method Append(key: string, value: FieldValue)
      modifies this
      ensures parts == old(parts) + [Part(key, value)]
    {
      parts := parts + [Part(key, value)];
    }
  }

  datatype Header = Header(name: string, value: string)

  /** What is handed to `fetch`: the verb, the path below the configured base
      address, the headers and the multipart body (empty for a GET). */
  datatype Request = Request(verb: string, path: string, headers: seq<Header>, body: seq<Part>)

  /** `Bearer ${token}`: a token that was never stored is interpolated as "null". */
  function Bearer(token: Option<string>): (r: string)
    ensures token.Some? ==> r == "Bearer " + token.value
    ensures token.None? ==> r == "Bearer null"
  {
    "Bearer " + token.GetOr("null")
  }

  /** How an awaited `fetch` followed by `response.json()` ends: with a parsed
      body (and the response's `ok` flag and the body's `message`), or by
      throwing (no connection, or a body that is not JSON). */
  datatype Reply =
    | Parsed(ok: bool, message: Option<string>)
    | Thrown

  /** What the user is shown: nothing, an `Alert.alert(title, message)` (the
      message may be `undefined`), or a short Android toast. */
  datatype Feedback =
    | Silent
    | Alert(title: string, message: Option<string>)
    | Toast(text: string)
}
