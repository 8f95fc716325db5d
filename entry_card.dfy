/** The card that shows one diary entry: the shortened text with its
    show-more control, at most four image tiles, and the delete dialog. */
module EntryCard {
  import opened Wrappers
  import JsString
  import Diary

  /** The text length past which a card shortens its content. */
  const PreviewLength: nat := 200

  /** `contentPreview`: short text as it is, longer text cut to its first
      200 characters followed by an ellipsis. */
  function ContentPreview(content: string): (r: string)
    ensures |content| <= PreviewLength ==> r == content
    ensures |content| > PreviewLength ==> |r| == PreviewLength + 3 && r[PreviewLength..] == "..."
  {
    if |content| > PreviewLength then content[..PreviewLength] + "..." else content
  }

  /** The preview only ever shows a beginning of the content, and never more
      than 203 characters. */
  lemma PreviewIsPrefix(content: string)
    ensures var r := ContentPreview(content);
      var shown := if |content| > PreviewLength then PreviewLength else |content|;
      && |r| <= PreviewLength + 3
      && r[..shown] == content[..shown]
  {
    var r := ContentPreview(content);
    if |content| > PreviewLength {
      assert r[..PreviewLength] == content[..PreviewLength];
    }
  }

  /** The show-more / show-less button is rendered only for long text. */
  predicate HasToggle(content: string) {
    |content| > PreviewLength
  }

  /** The label of the show-more / show-less button. */
  function ToggleLabel(full: bool): (r: string)
    ensures full <==> r == "Show less"
  {
    if full then "Show less" else "Show more"
  }

  // ---------------------------------------------------------------------
  // Images

  /** The most image tiles a card shows. */
  const MaxTiles: nat := 4

  /** One rendered image: its source, its alternative text and the
      "+N more" overlay, if it carries one. */
  datatype Tile = Tile(src: string, alt: string, overlay: Option<string>)

  /** The tile at position `idx` of `images.slice(0, 4)`. */
  function TileAt(images: seq<string>, idx: nat): Tile
    requires idx < |images|
  {
    Tile(images[idx], "Entry image " + JsString.NatToString(idx + 1),
      if |images| > MaxTiles && idx == 3
      then Some("+" + JsString.NatToString(|images| - MaxTiles) + " more")
      else None)
  }

  /** The tiles of the first `n` images. */
  function TilesUpTo(images: seq<string>, n: nat): (r: seq<Tile>)
    requires n <= |images|
    ensures |r| == n
    ensures forall i :: 0 <= i < n ==> r[i] == TileAt(images, i)
  {
    if n == 0 then [] else TilesUpTo(images, n - 1) + [TileAt(images, n - 1)]
  }

  /** `entry.images.slice(0, 4).map(...)`; no images, no grid. */
  function ImageTiles(images: seq<string>): (r: seq<Tile>)
    ensures |r| == if |images| > MaxTiles then MaxTiles else |images|
  {
    TilesUpTo(images, if |images| > MaxTiles then MaxTiles else |images|)
  }

  /** The tiles show the images in order, each numbered from one; only the
      fourth tile can carry an overlay, it does exactly when images are left
      over, and it then counts the images that are not shown. */
  lemma ImageTilesShape(images: seq<string>)
    ensures var r := ImageTiles(images);
      && (forall i :: 0 <= i < |r| ==> r[i].src == images[i])
      && (forall i :: 0 <= i < |r| ==> r[i].alt == "Entry image " + JsString.NatToString(i + 1))
      && (forall i :: 0 <= i < |r| && r[i].overlay.Some? ==> i == 3)
      && ((exists i :: 0 <= i < |r| && r[i].overlay.Some?) <==> |images| > |r|)
      && (|images| > |r| ==>
            r[3].overlay == Some("+" + JsString.NatToString(|images| - |r|) + " more"))
  {
    var r := ImageTiles(images);
    if |images| > |r| {
      assert r[3].overlay.Some?;
    }
  }

  // ---------------------------------------------------------------------
  // The card state

  class EntryCardView {
    const entry: Diary.Entry
    /** Whether an `onDelete` callback was given. */
    const hasOnDelete: bool
    const showActions: bool
    var showFullContent: bool
    var showDeleteModal: bool

    constructor (entry: Diary.Entry, hasOnDelete: bool, showActions: bool)
      ensures this.entry == entry && this.hasOnDelete == hasOnDelete && this.showActions == showActions
      ensures !showFullContent && !showDeleteModal
    {
      this.entry := entry;
      this.hasOnDelete := hasOnDelete;
      this.showActions := showActions;
      showFullContent := false;
      showDeleteModal := false;
    }

    /** The markup placed in the card: the full text or the preview. */
    function Displayed(): (r: string)
      reads this
      ensures showFullContent ==> r == entry.content
      ensures !HasToggle(entry.content) ==> r == entry.content
      ensures HasToggle(entry.content) && !showFullContent ==> |r| == PreviewLength + 3
    {
      if showFullContent then entry.content else ContentPreview(entry.content)
    }

    /** The trash button is rendered only with actions on and a delete
        callback given. */
    predicate ShowsDeleteButton()
      reads this
    {
      showActions && hasOnDelete
    }

    /** Pressing show more / show less flips between text and preview. */
    method ToggleContent()
      modifies this
      ensures showFullContent == !old(showFullContent)
      ensures showDeleteModal == old(showDeleteModal)
    {
      showFullContent := !showFullContent;
    }

    /** The trash button opens the confirmation dialog. */
    method OpenDeleteModal()
      requires ShowsDeleteButton()
      modifies this
      ensures showDeleteModal
      ensures showFullContent == old(showFullContent)
    {
      showDeleteModal := true;
    }

    /** Cancel, or closing the dialog. */
    method CloseDeleteModal()
      modifies this
      ensures !showDeleteModal
      ensures showFullContent == old(showFullContent)
    {
      showDeleteModal := false;
    }

    /** `handleDelete`: reports the entry's id to `onDelete` when there is
        one (`deleted`), and closes the dialog in every case. */
    method HandleDelete() returns (deleted: Option<string>)
      modifies this
      ensures deleted.Some? <==> hasOnDelete
      ensures deleted.Some? ==> deleted.value == entry.id
      ensures !showDeleteModal
      ensures showFullContent == old(showFullContent)
    {
      deleted := None;
      if hasOnDelete {
        deleted := Some(entry.id);
      }
      showDeleteModal := false;
    }
  }
}
