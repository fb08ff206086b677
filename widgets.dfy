/** The nullable-value wrapper used for Java references that may be null. */
module Wrappers {
  datatype Option<+T> = None | Some(value: T)
}

/** The display widgets the image cache paints on, reduced to the state it reads and writes.
    The cache only ever compares views by identity, sets visibilities and images, and reads
    the view's tag, so each widget is a small class whose fields the cache updates in place. */
module Widgets {
  import opened Wrappers

  /** A decoded raster; the cache never looks inside one. */
  datatype Bitmap = Bitmap(pixels: seq<int>)

  /** The three visibility states of a view. */
  datatype Visibility = Visible | Invisible | Gone

  /** An image view: its visibility, the bitmap it shows (None stands for null) and its
      tag, which the application sets to the URL the view is waiting for. */
  class ImageView {
    var visibility: Visibility
    var image: Option<Bitmap>
    var tag: Option<string>
  }

  /** A progress indicator shown while an image is being fetched. */
  class ProgressBar {
    var visibility: Visibility
  }
}
