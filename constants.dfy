/** The `Constants.EmbedTypes` tags the embed decoder dispatches on. */
module Constants {
  import opened Whitespace

  /** A tag as the lexicon writes it: non-empty, no surrounding white space. */
  predicate IsLexiconId(t: string) {
    t != [] && IsBare(t)
  }

  /** The eight embed type tags. Their values are the protocol's lexicon ids
      and are kept abstract: the decoder relies only on `WellFormed`. */
  datatype EmbedTypes = EmbedTypes(
    imageView: string,
    externalView: string,
    images: string,
    external: string,
    record: string,
    recordView: string,
    recordWithMediaView: string,
    recordWithMedia: string)
  {
    function Tags(): seq<string> {
      [imageView, externalView, images, external, record, recordView, recordWithMediaView, recordWithMedia]
    }

    /** The tags are pairwise distinct (C# refuses two equal `case` labels),
        and each is a non-empty lexicon id without surrounding white space. */
    predicate WellFormed() {
      && (forall i, j :: 0 <= i < j < 8 ==> Tags()[i] != Tags()[j])
      && (forall i :: 0 <= i < 8 ==> IsLexiconId(Tags()[i]))
    }

    /** The distinctness and non-emptiness of `WellFormed`, spelt out tag by tag. */
    lemma Distinct()
      requires WellFormed()
      ensures imageView != externalView && imageView != images && imageView != external && imageView != record && imageView != recordView && imageView != recordWithMediaView && imageView != recordWithMedia
      ensures externalView != images && externalView != external && externalView != record && externalView != recordView && externalView != recordWithMediaView && externalView != recordWithMedia
      ensures images != external && images != record && images != recordView && images != recordWithMediaView && images != recordWithMedia
      ensures external != record && external != recordView && external != recordWithMediaView && external != recordWithMedia
      ensures record != recordView && record != recordWithMediaView && record != recordWithMedia
      ensures recordView != recordWithMediaView && recordView != recordWithMedia
      ensures recordWithMediaView != recordWithMedia
      ensures IsLexiconId(imageView) && IsLexiconId(externalView) && IsLexiconId(images) && IsLexiconId(external)
      ensures IsLexiconId(record) && IsLexiconId(recordView) && IsLexiconId(recordWithMediaView) && IsLexiconId(recordWithMedia)
    {
      var t := Tags();
      assert t[0] == imageView && t[1] == externalView && t[2] == images && t[3] == external;
      assert t[4] == record && t[5] == recordView && t[6] == recordWithMediaView && t[7] == recordWithMedia;
    }
  }
}
