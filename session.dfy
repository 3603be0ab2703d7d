/**
 * One browser session of the segment browser: the stored shapefile index,
 * the page run that updates it, the selected file and the overlay decision.
 */
module Session {
  import opened ShapefileListing
  import opened Navigation
  import opened Styling

  /** What happens to the segmentation layer in one page run. */
  datatype Overlay =
    | Skipped                  // checkbox off, or index beyond the segmentation listing
    | Drawn(layer: string)     // same-named file found, drawn with SegmentStyle
    | NoMatch(layer: string)   // same-named file absent: "no matching segmentation" notice

  /**
   * The overlay guard `show_segmented and index <= len(new_shapefiles)`,
   * followed by the lookup of the same-named file in the segmentation folder.
   * Whether that file exists is given by the caller.
   */
  function OverlayOutcome(showSegmented: bool, index: int, shapefiles: seq<string>,
                          segmentedCount: nat, segmentedExists: bool): (o: Overlay)
    requires 1 <= index <= |shapefiles|
    ensures o.Skipped? <==> !(showSegmented && index <= segmentedCount)
    ensures o.Drawn? <==> showSegmented && index <= segmentedCount && segmentedExists
    ensures !o.Skipped? ==> o.layer == shapefiles[index - 1]
  {
    if showSegmented && index <= segmentedCount then
      var name := shapefiles[index - 1];
      if segmentedExists then Drawn(name) else NoMatch(name)
    else Skipped
  }

  /**
   * The overlay, when attempted, looks up a shapefile name taken from the
   * base listing (never from the segmentation listing), so the guard on the
   * segmentation listing's length is not what keeps the lookup in range.
   */
  lemma OverlayNamesBaseShapefile(listing: seq<string>, showSegmented: bool, index: int,
                                  segmentedCount: nat, segmentedExists: bool)
    requires 1 <= index <= |ListShapefiles(listing)|
    ensures var o := OverlayOutcome(showSegmented, index, ListShapefiles(listing), segmentedCount, segmentedExists);
            !o.Skipped? ==> o.layer in listing && IsShapefileName(o.layer)
  {
    var shapefiles := ListShapefiles(listing);
    assert shapefiles[index - 1] in shapefiles;
  }

  /** The session-state cell `st.session_state['shapefile_index']`. */
  class SessionState {
    /** Whether the key 'shapefile_index' is present. */
    var hasIndex: bool
    /** The stored 1-based index (meaningless while hasIndex is false). */
    var index: int

    /** The index, once stored, selects one of count shapefiles. */
    ghost predicate Valid(count: nat)
      reads this
    {
      hasIndex ==> 1 <= index <= count
    }

    /** A fresh session holds no index. */
    constructor ()
      ensures !hasIndex
    {
      hasIndex, index := false, 0;
    }

    /** `if 'shapefile_index' not in st.session_state: ... = 1` */
    method InitIndex()
      modifies this
      ensures hasIndex
      ensures index == if old(hasIndex) then old(index) else 1
      ensures forall count: nat :: count >= 1 && old(Valid(count)) ==> Valid(count)
    {
      if !hasIndex {
        hasIndex, index := true, 1;
      }
    }

    /** The Previous button: one place back, wrapping from 1 to count. */
    method Previous(count: nat)
      requires hasIndex && count >= 1
      modifies this`index
      ensures index == PrevIndex(old(index), count)
      ensures old(Valid(count)) ==> Valid(count)
    {
      index := index - 1;
      if index < 1 {
        index := count;
      }
    }

    /** The Next button: one place forward, wrapping from count to 1. */
    method Next(count: nat)
      requires hasIndex && count >= 1
      modifies this`index
      ensures index == NextIndex(old(index), count)
      ensures old(Valid(count)) ==> Valid(count)
    {
      index := index + 1;
      if index > count {
        index := 1;
      }
    }

    /** `if previous: ... elif next: ...` */
    method Navigate(c: Clicks, count: nat)
      requires hasIndex && count >= 1
      modifies this`index
      ensures index == StepIndex(old(index), count, c)
      ensures old(Valid(count)) ==> Valid(count)
    {
      if c.previous {
        Previous(count);
      } else if c.next {
        Next(count);
      }
    }

    /** `shapefiles[shapefile_index - 1]`: the 1-based index is always a valid position. */
    method SelectedFile(shapefiles: seq<string>) returns (name: string)
      requires hasIndex && Valid(|shapefiles|)
      ensures 0 <= index - 1 < |shapefiles| && name == shapefiles[index - 1]
      ensures name in shapefiles
    {
      name := shapefiles[index - 1];
    }

    /**
     * One run of the page script: list both folders, initialise the index
     * if absent, apply the button flags, select the file and decide the
     * overlay. The listings and the existence check are inputs.
     */
    method Rerun(listing: seq<string>, segmentedListing: seq<string>, c: Clicks,
                 showSegmented: bool, segmentedExists: bool)
      returns (selected: string, overlay: Overlay)
      requires |ListShapefiles(listing)| >= 1
      requires Valid(|ListShapefiles(listing)|)
      modifies this
      ensures hasIndex && Valid(|ListShapefiles(listing)|)
      ensures index == StepIndex(if old(hasIndex) then old(index) else 1, |ListShapefiles(listing)|, c)
      ensures selected == ListShapefiles(listing)[index - 1]
      ensures selected in listing && IsShapefileName(selected)
      ensures overlay == OverlayOutcome(showSegmented, index, ListShapefiles(listing),
                                        |ListShapefiles(segmentedListing)|, segmentedExists)
    {
      var shapefiles := ListShapefiles(listing);
      var segmentedShapefiles := ListShapefiles(segmentedListing);
      InitIndex();
      Navigate(c, |shapefiles|);
      selected := SelectedFile(shapefiles);
      if showSegmented && index <= |segmentedShapefiles| {
        var name := shapefiles[index - 1];
        overlay := if segmentedExists then Drawn(name) else NoMatch(name);
      } else {
        overlay := Skipped;
      }
    }
  }
}
