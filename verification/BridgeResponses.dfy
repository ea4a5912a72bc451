/** Answering a bridge request: what an answer comes to, and writing it where its client polls for it. */
module BridgeResponses {
  import opened Common
  import opened Utf8

  const MAX_BRIDGE_RESPONSE_BYTES: nat := 256 * 1024

  /**
   * How the disk treats one write: whether the directory is there or can be made, what was written
   * before a failure, and whether the final rename succeeds.
   */
  datatype Disk = Disk(ready: bool, partial: Option<seq<byte>>, renamed: bool)

  /**
   * What serving a request comes to: nothing, when it names no session; nothing yet, when a saga will
   * answer it; or an answer to write now.
   */
  datatype Reply = Unattributed | Deferred | Answer(body: seq<byte>, disk: Disk)

  /** The answer reaches its client. */
  predicate Writes(r: Reply) {
    r.Answer? && |r.body| <= MAX_BRIDGE_RESPONSE_BYTES && r.disk.ready && r.disk.partial.None? && r.disk.renamed
  }

  /** An answer reaches the client, or is left to a saga. */
  predicate Settles(r: Reply) { r.Deferred? || Writes(r) }

  function TempName(key: string): string { key + ".tmp" }

  function FinalName(key: string): string { key + ".res" }

  lemma NamesApart(key: string)
    ensures TempName(key) != FinalName(key)
  {
    assert TempName(key)[|key| + 1] == 't' && FinalName(key)[|key| + 1] == 'r';
  }

  type Files = map<string, seq<byte>>

  /** At an instant of a write, its client sees the answer it saw before, or the whole new one. */
  predicate NeverHalfWritten(before: Files, now: Files, key: string, body: seq<byte>) {
    var name := FinalName(key);
    || (name in now && now[name] == body)
    || ((name in now <==> name in before) && (name in now ==> now[name] == before[name]))
  }

  /** One session's response directory, and every state of it a client could see. */
  class ResponseDir {
    var files: Files
    ghost var seen: seq<Files>

    ghost predicate Valid() reads this { seen != [] && seen[|seen| - 1] == files }

    constructor (files: Files)
      ensures Valid() && this.files == files && seen == [files]
    {
      this.files, seen := files, [files];
    }

    method Remove(name: string)
      modifies this
      ensures Valid() && files == old(files) - {name} && seen == old(seen) + [files]
    {
      files := files - {name};
      seen := seen + [files];
    }

    /** Write a file, or part of it when the disk fails. */
    method WriteFile(name: string, body: seq<byte>, disk: Disk) returns (ok: bool)
      modifies this
      ensures Valid() && ok == disk.partial.None? && seen == old(seen) + [files]
      ensures files == old(files)[name := if disk.partial.Some? then disk.partial.value else body]
    {
      files := files[name := if disk.partial.Some? then disk.partial.value else body];
      seen := seen + [files];
      ok := disk.partial.None?;
    }

    /** Put a file in the place of another at once. */
    method Rename(from: string, to: string, disk: Disk) returns (ok: bool)
      requires Valid() && from in files && from != to
      modifies this
      ensures Valid() && ok == disk.renamed
      ensures ok ==> files == (old(files) - {from})[to := old(files)[from]] && seen == old(seen) + [files]
      ensures !ok ==> files == old(files) && seen == old(seen)
    {
      ok := disk.renamed;
      if ok {
        files := (files - {from})[to := files[from]];
        seen := seen + [files];
      }
    }

    /** Write beside the answer's name and rename into place. */
    method Write(key: string, body: seq<byte>, disk: Disk) returns (ok: bool)
      requires Valid()
      modifies this
      ensures Valid() && ok == Writes(Answer(body, disk))
      ensures ok ==> files == (old(files) - {TempName(key)})[FinalName(key) := body]
      ensures !ok ==> files - {TempName(key)} == old(files) - {TempName(key)}
      ensures old(seen) <= seen
      ensures forall i :: |old(seen)| <= i < |seen| ==> NeverHalfWritten(old(files), seen[i], key, body)
    {
      NamesApart(key);
      hide TempName, FinalName;
      if !disk.ready || |body| > MAX_BRIDGE_RESPONSE_BYTES {
        return false;
      }
      Remove(TempName(key));
      ok := WriteFile(TempName(key), body, disk);
      if ok {
        ok := Rename(TempName(key), FinalName(key), disk);
      }
    }
  }
}
