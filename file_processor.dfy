/** The dispatcher between the file watcher and the ingestion coordinator:
    an event kind and a path become an ingest, a delete or nothing, and a
    `bool` saying whether the event was handled. Whether the file exists
    on disk is an input. */
module FileProcessor {
  import opened Ingestion

  /** `process_file_event`: `'deleted'` goes to the delete path, which
      reports success whatever it found; `'created'`, `'modified'` and
      `'startup'` go to the content path, which gives up on a file that is
      gone and ingests only for `'startup'` and `'created'`; any other kind
      is refused. Both coordinator operations catch their own errors, so
      neither makes this return `False`. The dispatcher reports success
      exactly for a delete or for a known content kind whose file still
      exists, and only a delete or an ingest writes: `'modified'` (not
      implemented in the source), unknown kinds and vanished files leave
      every table as it was. */
  function Dispatch(s: Services, cfg: Config, env: Env, kind: string, path: string, onDisk: bool, t: Tables)
    : (r: (bool, Tables))
    requires ValidConfig(cfg)
    ensures r.0 <==> kind == "deleted" || (onDisk && kind in {"created", "modified", "startup"})
    ensures kind != "deleted" && !(onDisk && kind in {"created", "startup"}) ==> r.1 == t
  {
    if kind == "deleted" then (true, Remove(path, t).1)
    else if kind == "created" || kind == "modified" || kind == "startup" then
      if !onDisk then (false, t)
      else if kind == "startup" || kind == "created" then (true, Ingest(s, cfg, env, path, t).1)
      else (true, t)
    else (false, t)
  }

  class FileProcessor {
    const processor: DocumentProcessor

    constructor (p: DocumentProcessor)
      ensures processor == p
    {
      processor := p;
    }

    /** `process_file_event`. */
    method ProcessFileEvent(kind: string, path: string, onDisk: bool, env: Env) returns (ok: bool)
      requires ValidConfig(processor.config)
      modifies processor.documents, processor.chunks, processor.index
      ensures (ok, processor.Snapshot())
        == Dispatch(processor.services, processor.config, env, kind, path, onDisk, old(processor.Snapshot()))
    {
      if kind == "deleted" {
        ok := HandleFileDeletion(path);
      } else if kind == "created" || kind == "modified" || kind == "startup" {
        ok := PostProcessContent(path, kind, onDisk, env);
      } else {
        ok := false;
      }
    }

    /** `_handle_file_deletion`. */
    method HandleFileDeletion(path: string) returns (ok: bool)
      modifies processor.documents, processor.chunks, processor.index
      ensures ok && processor.Snapshot() == Remove(path, old(processor.Snapshot())).1
    {
      var _ := processor.DeleteDocument(path);
      ok := true;
    }

    /** `_post_process_content`. */
    method PostProcessContent(path: string, kind: string, onDisk: bool, env: Env) returns (ok: bool)
      requires ValidConfig(processor.config)
      requires kind == "created" || kind == "modified" || kind == "startup"
      modifies processor.documents, processor.chunks, processor.index
      ensures (ok, processor.Snapshot())
        == Dispatch(processor.services, processor.config, env, kind, path, onDisk, old(processor.Snapshot()))
    {
      if !onDisk {
        return false;
      }
      if kind == "startup" || kind == "created" {
        var _ := processor.ProcessDocument(path, env);
      }
      ok := true;
    }
  }
}
