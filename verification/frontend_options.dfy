/** The options the exporter itself receives: the macro-path patterns whose
    invocations are folded back into a single call. The definition of
    `Namespace` and of its glob matching belong to the options crate, which
    is not part of this model; a pattern is kept as its written segments and
    matching is a parameter wherever it is needed. */
module FrontendOptions {

  /** A macro-path pattern such as `hacspec_lib::array::*`, one entry per
      `::`-separated segment; `*` and `**` segments are globs. */
  datatype Namespace = Namespace(segments: seq<string>)

  datatype Options = Options(inlineMacroCalls: seq<Namespace>)
}
