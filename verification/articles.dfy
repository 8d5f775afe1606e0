/** The record every stage of the pipeline passes on, and the loosely typed
    JSON objects and feed entries it is built from. */
module Articles {

  /** One article as the fetch stage writes it: a dict with exactly these six
      keys, every value a string. */
  datatype Article = Article(
    source: string,
    section: string,
    title: string,
    abstractText: string,
    url: string,
    publishedDate: string)

  /** A JSON object or a feed entry whose values are strings. */
  type Fields = map<string, string>

  /** Python's `d.get(key, default)`. */
  function Get(d: Fields, key: string, default: string): string {
    if key in d then d[key] else default
  }

  /** The dict that `json.dump` writes for an article: all six keys present. */
  function ToFields(a: Article): (d: Fields)
    ensures d.Keys == {"source", "section", "title", "abstract", "url", "published_date"}
  {
    map["source" := a.source, "section" := a.section, "title" := a.title,
        "abstract" := a.abstractText, "url" := a.url, "published_date" := a.publishedDate]
  }
}
