/**
 * The examples of `guess_mime` in util.py, for a platform MIME table that
 * holds the entries those examples observe (the table itself comes from
 * the platform and is not fixed here).
 */
module MimeExamples {
  import opened Text
  import opened Mime

  /** The platform entries the examples rely on, and two it must lack. */
  predicate ExampleTable(platform: map<string, string>) {
    && ".html" in platform && platform[".html"] == "text/html"
    && ".xhtml" in platform && platform[".xhtml"] == "application/xhtml+xml"
    && ".txt" in platform && platform[".txt"] == "text/plain"
    && ".jpeg" in platform && platform[".jpeg"] == "image/jpeg"
    && ".webp" in platform && platform[".webp"] == "image/webp"
    && ".otf" in platform && platform[".otf"] == "font/otf"
    && ".css" in platform && platform[".css"] == "text/css"
    && ".mp4" in platform && platform[".mp4"] == "video/mp4"
    && ".zip" in platform && platform[".zip"] == "application/zip"
    && ".ico" in platform && platform[".ico"] == "image/x-icon"
    && ".tgzzz" !in platform && "" !in platform
  }

  /** Every example of util.py:23-52, under any directory. */
  lemma GuessMimeExamples(platform: map<string, string>, dir: string)
    requires ExampleTable(platform)
    ensures GuessMime(platform, dir + "/" + "index.html") == "text/html"
    ensures GuessMime(platform, dir + "/" + "index.xhtml") == "application/xhtml+xml"
    ensures GuessMime(platform, dir + "/" + "index.txt") == "text/plain"
    ensures GuessMime(platform, dir + "/" + "INDEX.JPEG") == "image/jpeg"
    ensures GuessMime(platform, dir + "/" + "INDEX.WEBP") == "image/webp"
    ensures GuessMime(platform, dir + "/" + "index.otf") == "font/otf"
    ensures GuessMime(platform, dir + "/" + "index.woff") == "font/woff"
    ensures GuessMime(platform, dir + "/" + "index.woff2") == "font/woff2"
    ensures GuessMime(platform, dir + "/" + "index.css") == "text/css"
    ensures GuessMime(platform, dir + "/" + "index.js") == "text/javascript"
    ensures GuessMime(platform, dir + "/" + "index.mp4") == "video/mp4"
    ensures GuessMime(platform, dir + "/" + "download.zip") == "application/zip"
    ensures GuessMime(platform, dir + "/" + "favicon.ico") == "image/x-icon"
    ensures GuessMime(platform, dir + "/" + "index.tgzzz") == DefaultType
    ensures GuessMime(platform, dir + "/" + "index") == DefaultType
  {
    ExampleIndexHtml(platform, dir);
    ExampleIndexXhtml(platform, dir);
    ExampleIndexTxt(platform, dir);
    ExampleIndexJpeg(platform, dir);
    ExampleIndexWebp(platform, dir);
    ExampleIndexOtf(platform, dir);
    ExampleIndexWoff(platform, dir);
    ExampleIndexWoff2(platform, dir);
    ExampleIndexCss(platform, dir);
    ExampleIndexJs(platform, dir);
    ExampleIndexMp4(platform, dir);
    ExampleDownloadZip(platform, dir);
    ExampleFaviconIco(platform, dir);
    ExampleIndexTgzzz(platform, dir);
    ExampleIndex(platform, dir);
  }

  lemma ExampleIndexHtml(platform: map<string, string>, dir: string)
    requires ExampleTable(platform)
    ensures GuessMime(platform, dir + "/" + "index.html") == "text/html"
  {
    GuessMimeOfExtension(platform, dir, "index.html", 5);
    assert Lower(".html") == ".html";
  }

  lemma ExampleIndexXhtml(platform: map<string, string>, dir: string)
    requires ExampleTable(platform)
    ensures GuessMime(platform, dir + "/" + "index.xhtml") == "application/xhtml+xml"
  {
    GuessMimeOfExtension(platform, dir, "index.xhtml", 5);
    assert Lower(".xhtml") == ".xhtml";
  }

  lemma ExampleIndexTxt(platform: map<string, string>, dir: string)
    requires ExampleTable(platform)
    ensures GuessMime(platform, dir + "/" + "index.txt") == "text/plain"
  {
    GuessMimeOfExtension(platform, dir, "index.txt", 5);
    assert Lower(".txt") == ".txt";
  }

  lemma ExampleIndexJpeg(platform: map<string, string>, dir: string)
    requires ExampleTable(platform)
    ensures GuessMime(platform, dir + "/" + "INDEX.JPEG") == "image/jpeg"
  {
    GuessMimeOfExtension(platform, dir, "INDEX.JPEG", 5);
    assert Lower(".JPEG") == ".jpeg";
  }

  lemma ExampleIndexWebp(platform: map<string, string>, dir: string)
    requires ExampleTable(platform)
    ensures GuessMime(platform, dir + "/" + "INDEX.WEBP") == "image/webp"
  {
    GuessMimeOfExtension(platform, dir, "INDEX.WEBP", 5);
    assert Lower(".WEBP") == ".webp";
  }

  lemma ExampleIndexOtf(platform: map<string, string>, dir: string)
    requires ExampleTable(platform)
    ensures GuessMime(platform, dir + "/" + "index.otf") == "font/otf"
  {
    GuessMimeOfExtension(platform, dir, "index.otf", 5);
    assert Lower(".otf") == ".otf";
  }

  lemma ExampleIndexWoff(platform: map<string, string>, dir: string)
    requires ExampleTable(platform)
    ensures GuessMime(platform, dir + "/" + "index.woff") == "font/woff"
  {
    GuessMimeOfExtension(platform, dir, "index.woff", 5);
    assert Lower(".woff") == ".woff";
  }

  lemma ExampleIndexWoff2(platform: map<string, string>, dir: string)
    requires ExampleTable(platform)
    ensures GuessMime(platform, dir + "/" + "index.woff2") == "font/woff2"
  {
    GuessMimeOfExtension(platform, dir, "index.woff2", 5);
    assert Lower(".woff2") == ".woff2";
  }

  lemma ExampleIndexCss(platform: map<string, string>, dir: string)
    requires ExampleTable(platform)
    ensures GuessMime(platform, dir + "/" + "index.css") == "text/css"
  {
    GuessMimeOfExtension(platform, dir, "index.css", 5);
    assert Lower(".css") == ".css";
  }

  lemma ExampleIndexJs(platform: map<string, string>, dir: string)
    requires ExampleTable(platform)
    ensures GuessMime(platform, dir + "/" + "index.js") == "text/javascript"
  {
    GuessMimeOfExtension(platform, dir, "index.js", 5);
    assert Lower(".js") == ".js";
  }

  lemma ExampleIndexMp4(platform: map<string, string>, dir: string)
    requires ExampleTable(platform)
    ensures GuessMime(platform, dir + "/" + "index.mp4") == "video/mp4"
  {
    GuessMimeOfExtension(platform, dir, "index.mp4", 5);
    assert Lower(".mp4") == ".mp4";
  }

  lemma ExampleDownloadZip(platform: map<string, string>, dir: string)
    requires ExampleTable(platform)
    ensures GuessMime(platform, dir + "/" + "download.zip") == "application/zip"
  {
    GuessMimeOfExtension(platform, dir, "download.zip", 8);
    assert Lower(".zip") == ".zip";
  }

  lemma ExampleFaviconIco(platform: map<string, string>, dir: string)
    requires ExampleTable(platform)
    ensures GuessMime(platform, dir + "/" + "favicon.ico") == "image/x-icon"
  {
    GuessMimeOfExtension(platform, dir, "favicon.ico", 7);
    assert Lower(".ico") == ".ico";
  }

  lemma ExampleIndexTgzzz(platform: map<string, string>, dir: string)
    requires ExampleTable(platform)
    ensures GuessMime(platform, dir + "/" + "index.tgzzz") == DefaultType
  {
    GuessMimeOfExtension(platform, dir, "index.tgzzz", 5);
    assert Lower(".tgzzz") == ".tgzzz";
  }

  lemma ExampleIndex(platform: map<string, string>, dir: string)
    requires ExampleTable(platform)
    ensures GuessMime(platform, dir + "/" + "index") == DefaultType
  {
    GuessMimeOfName(platform, dir, "index");
    assert RFind("index", '.') == -1;
  }
}
