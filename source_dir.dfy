/**
 * The `upgrader_source_selection` filter: an archive downloaded from a tag unpacks into a
 * directory named after the repository and commit ("owner-repo-abc123"); the filter renames
 * it to `<remote_source>/<theme slug>` so that WordPress installs the update over the
 * installed theme. The filesystem enters only through what `move_dir` returns.
 */
module SourceDir {
  import opened Wrappers
  import opened Php

  /** The filter's return value: a source path, or the WP_Error `rename_failed`. */
  datatype FixResult =
    | Source(path: string)
    | RenameFailed(code: string, message: string)

  /** A directory rename the filter asks `move_dir` for. */
  datatype Move = Move(from: string, to: string)

  /** What the filter returns and which rename, if any, it attempted. */
  datatype Outcome = Outcome(result: FixResult, rename: Option<Move>)

  /** `trailingslashit($remote_source) . $slug`, the directory the theme must end up in. */
  function CorrectSource(remoteSource: string, slug: string): (r: string)
    ensures |r| > |slug|
    ensures r[..|r| - |slug|] == TrailingSlashIt(remoteSource) && r[|r| - |slug|..] == slug
    ensures r[|r| - |slug| - 1] == '/'
  {
    TrailingSlashIt(remoteSource) + slug
  }

  const RENAME_MESSAGE: string := "Unable to rename the update to match the expected theme directory: "

  /** What WordPress `move_dir($from, $to)` returns: `true`, or a WP_Error with its code. */
  datatype MoveResult = Moved | MoveError(code: string)

  /** PHP truthiness of a `move_dir` result: `true` is truthy, and so is every object, a WP_Error included. */
  predicate MoveTruthy(m: MoveResult) {
    match m
    case Moved => true
    case MoveError(_) => true
  }

  /**
   * `maybeFixSourceDir($source, $remote_source, $upgrader, $args)` as intended: `hasFilesystem`
   * is whether `$wp_filesystem` is an object, `theme` is `$args['theme']` (None when unset),
   * and `move` is what `move_dir($source, $correct_source)` returns. A move that fails is
   * reported as `rename_failed`.
   */
  function MaybeFixSourceDir(source: string, remoteSource: string, hasFilesystem: bool,
                             theme: Option<string>, move: MoveResult): (out: Outcome)
    ensures !hasFilesystem || theme.None? ==> out == Outcome(Source(source), None)
    ensures hasFilesystem && theme.Some? ==>
      var target := CorrectSource(remoteSource, theme.value);
      && (source == target ==> out == Outcome(Source(source), None))
      && (source != target ==> out.rename == Some(Move(source, target)))
      && (source != target && move.Moved? ==> out.result == Source(target))
      && (source != target && move.MoveError? ==>
            out.result == RenameFailed("rename_failed", RENAME_MESSAGE + theme.value))
  {
    if !hasFilesystem || theme.None? then Outcome(Source(source), None)
    else
      var slug := theme.value;
      var target := CorrectSource(remoteSource, slug);
      if source == target then Outcome(Source(source), None)
      else if move.Moved? then Outcome(Source(target), Some(Move(source, target)))
      else Outcome(RenameFailed("rename_failed", RENAME_MESSAGE + slug), Some(Move(source, target)))
  }

  /** The filter as written: `if ($upgraded)` tests the truthiness of what `move_dir` returned. */
  function MaybeFixSourceDirAsWritten(source: string, remoteSource: string, hasFilesystem: bool,
                                      theme: Option<string>, move: MoveResult): Outcome
  {
    if !hasFilesystem || theme.None? then Outcome(Source(source), None)
    else
      var slug := theme.value;
      var target := CorrectSource(remoteSource, slug);
      if source == target then Outcome(Source(source), None)
      else if MoveTruthy(move) then Outcome(Source(target), Some(Move(source, target)))
      else Outcome(RenameFailed("rename_failed", RENAME_MESSAGE + slug), Some(Move(source, target)))
  }

  /**
   * As written, a failed move still returns the target directory as the new source, where
   * the intended filter reports `rename_failed`.
   */
  lemma MoveErrorReturnsTarget(source: string, remoteSource: string, slug: string, code: string)
    requires source != CorrectSource(remoteSource, slug)
    ensures MaybeFixSourceDirAsWritten(source, remoteSource, true, Some(slug), MoveError(code)).result
            == Source(CorrectSource(remoteSource, slug))
    ensures MaybeFixSourceDir(source, remoteSource, true, Some(slug), MoveError(code)).result
            == RenameFailed("rename_failed", RENAME_MESSAGE + slug)
  {
    assert MoveTruthy(MoveError(code));
  }

  /**
   * As written, the filter never returns `rename_failed`, whatever `move_dir` returns: the
   * result is the original source or the slug's directory.
   */
  lemma AsWrittenNeverFails(source: string, remoteSource: string, hasFilesystem: bool,
                            theme: Option<string>, move: MoveResult)
    ensures var out := MaybeFixSourceDirAsWritten(source, remoteSource, hasFilesystem, theme, move);
            out.result == Source(source)
            || (hasFilesystem && theme.Some? && out.result == Source(CorrectSource(remoteSource, theme.value)))
  {
    assert MoveTruthy(move);
  }

  /**
   * The intended filter hands WordPress the slug's directory in place of the archive
   * directory only when `move_dir` reported success.
   */
  lemma TargetOnlyAfterMove(source: string, remoteSource: string, slug: string, move: MoveResult)
    requires source != CorrectSource(remoteSource, slug)
    ensures MaybeFixSourceDir(source, remoteSource, true, Some(slug), move).result.Source?
            <==> move.Moved?
    ensures MaybeFixSourceDir(source, remoteSource, true, Some(slug), move).result.Source? ==>
            MaybeFixSourceDir(source, remoteSource, true, Some(slug), move).result.path == CorrectSource(remoteSource, slug)
  {
  }

  /**
   * Whenever the filter returns a path for a theme update, that path is the original source or the directory named after the slug; a rename always
   * targets the slug's directory.
   */
  lemma FixedPathNamedAfterSlug(source: string, remoteSource: string, slug: string, move: MoveResult)
    ensures var out := MaybeFixSourceDir(source, remoteSource, true, Some(slug), move);
            && (out.result.Source? ==> out.result.path == CorrectSource(remoteSource, slug)
                                       || (out.result.path == source && out.rename.None?))
            && (out.rename.Some? ==> out.rename.value == Move(source, CorrectSource(remoteSource, slug)))
  {
  }

  /** Running the filter again on the directory it produced renames nothing. */
  lemma FixIdempotent(source: string, remoteSource: string, slug: string, move: MoveResult, again: MoveResult)
    requires MaybeFixSourceDir(source, remoteSource, true, Some(slug), move).result.Source?
    ensures var first := MaybeFixSourceDir(source, remoteSource, true, Some(slug), move).result.path;
            var second := MaybeFixSourceDir(first, remoteSource, true, Some(slug), again);
            second.rename.None? && second.result == Source(first)
  {
    var first := MaybeFixSourceDir(source, remoteSource, true, Some(slug), move).result.path;
    if first != source {
      assert first == CorrectSource(remoteSource, slug);
    }
  }

  /** Trailing slashes on the remote source do not double up: "/tmp/x//" and "my-theme" give "/tmp/x/my-theme". */
  lemma CorrectSourceExample()
    ensures CorrectSource("/tmp/x//", "my-theme") == "/tmp/x/my-theme"
    ensures CorrectSource("/tmp/x", "my-theme") == "/tmp/x/my-theme"
  {
    assert "/tmp/x//"[..7] == "/tmp/x/";
    assert "/tmp/x/"[..6] == "/tmp/x";
    assert UntrailingSlashIt("/tmp/x") == "/tmp/x";
    assert UntrailingSlashIt("/tmp/x/") == "/tmp/x";
    assert UntrailingSlashIt("/tmp/x//") == "/tmp/x";
  }

  /**
   * A GitHub archive directory is renamed after the slug. When the target already exists,
   * the intended filter reports `rename_failed`; as written it returns the target anyway.
   */
  lemma ArchiveDirectoryRenamed()
    ensures MaybeFixSourceDir("/tmp/x/owner-repo-abc123", "/tmp/x", true, Some("my-theme"), Moved)
            == Outcome(Source("/tmp/x/my-theme"), Some(Move("/tmp/x/owner-repo-abc123", "/tmp/x/my-theme")))
    ensures MaybeFixSourceDir("/tmp/x/owner-repo-abc123", "/tmp/x", true, Some("my-theme"),
                              MoveError("destination_already_exists_move_dir")).result
            == RenameFailed("rename_failed", RENAME_MESSAGE + "my-theme")
    ensures MaybeFixSourceDirAsWritten("/tmp/x/owner-repo-abc123", "/tmp/x", true, Some("my-theme"),
                                       MoveError("destination_already_exists_move_dir")).result
            == Source("/tmp/x/my-theme")
  {
    CorrectSourceExample();
    assert "/tmp/x/owner-repo-abc123" != "/tmp/x/my-theme" by {
      assert "/tmp/x/owner-repo-abc123"[7] == 'o' && "/tmp/x/my-theme"[7] == 'm';
    }
  }
}
