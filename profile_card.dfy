/**
 * The read-only profile card: picture or placeholder, the skills as badges,
 * the project links, the resume (its displayed name loses the numeric
 * upload prefix) and the website, each with a fallback text when empty.
 */
module ProfileCard {
  import opened Wrappers

  // ---------------------------------------------------------------------------
  // The displayed resume name: `.replace(/^[0-9]+-/, "")`
  // ---------------------------------------------------------------------------

  predicate IsDigit(c: char) {
    '0' <= c <= '9'
  }

  /** Length of the run of digits at the start of `s`. */
  function LeadingDigits(s: string): (k: nat)
    ensures k <= |s|
    ensures forall i :: 0 <= i < k ==> IsDigit(s[i])
    ensures k < |s| ==> !IsDigit(s[k])
    decreases |s|
  {
    if |s| > 0 && IsDigit(s[0]) then 1 + LeadingDigits(s[1..]) else 0
  }

  /** The pattern `^[0-9]+-` matches the first `k + 1` characters of `s`: `k >= 1` digits, then a dash. */
  ghost predicate PrefixMatch(s: string, k: int) {
    1 <= k < |s| && (forall i :: 0 <= i < k ==> IsDigit(s[i])) && s[k] == '-'
  }

  /** Removes one match of `^[0-9]+-`, if there is one; the result is always a suffix of the input. */
  function StripUploadPrefix(s: string): (r: string)
    ensures |r| <= |s| && r == s[|s| - |r|..]
  {
    var k := LeadingDigits(s);
    if 1 <= k < |s| && s[k] == '-' then s[k + 1..] else s
  }

  /** At most one prefix matches: the digits cannot run past the dash. */
  lemma {:induction false} PrefixMatchUnique(s: string, k: int)
    requires PrefixMatch(s, k)
    ensures k == LeadingDigits(s)
    decreases k
  {
    assert IsDigit(s[0]);
    if k > 1 {
      assert PrefixMatch(s[1..], k - 1) by {
        forall i | 0 <= i < k - 1 ensures IsDigit(s[1..][i]) {
          assert s[1..][i] == s[i + 1];
        }
      }
      PrefixMatchUnique(s[1..], k - 1);
    } else {
      assert s[1..][0] == '-';
    }
  }

  /** When the name starts with digits and a dash, exactly that run and the dash are removed, once. */
  lemma StripRemovesMatch(s: string, k: int)
    requires PrefixMatch(s, k)
    ensures StripUploadPrefix(s) == s[k + 1..]
  {
    PrefixMatchUnique(s, k);
  }

  /** The name is left unchanged iff it does not start with digits followed by a dash. */
  lemma StripUnchangedIff(s: string)
    ensures StripUploadPrefix(s) == s <==> !exists k :: PrefixMatch(s, k)
  {
    var k := LeadingDigits(s);
    if 1 <= k < |s| && s[k] == '-' {
      assert PrefixMatch(s, k);
    } else if exists j :: PrefixMatch(s, j) {
      var j :| PrefixMatch(s, j);
      PrefixMatchUnique(s, j);
    }
  }

  lemma StripExamples()
    ensures StripUploadPrefix("123-456-a.pdf") == "456-a.pdf"
    ensures StripUploadPrefix("-a.pdf") == "-a.pdf"
    ensures StripUploadPrefix("2024cv.pdf") == "2024cv.pdf"
  {
    assert PrefixMatch("123-456-a.pdf", 3);
    StripRemovesMatch("123-456-a.pdf", 3);
    assert "123-456-a.pdf"[4..] == "456-a.pdf";
    StripUnchangedIff("-a.pdf");
    assert LeadingDigits("2024cv.pdf") == 4 by {
      assert "2024cv.pdf"[1..] == "024cv.pdf";
      assert "024cv.pdf"[1..] == "24cv.pdf";
      assert "24cv.pdf"[1..] == "4cv.pdf";
      assert "4cv.pdf"[1..] == "cv.pdf";
    }
  }

  // ---------------------------------------------------------------------------
  // The card
  // ---------------------------------------------------------------------------

  datatype ProjectProps = ProjectProps(name: string, link: string)

  /** `ProfileCardProps`; the optional props are `None` when not passed. */
  datatype Props = Props(
    name: string, email: string, college: string, graduation: string, userid: string,
    skills: seq<string>, projects: seq<ProjectProps>, resumeUrl: string,
    profilepictureUrl: Option<string>, website: Option<string>)

  datatype Picture = Photo(src: string) | PlaceholderIcon

  datatype ProjectRow = ProjectRow(name: string, href: string)

  datatype ResumeSection = ResumeLinks(caption: string, previewHref: string, downloadHref: string) | NoResume(message: string)

  datatype WebsiteSection = WebsiteLink(href: string, caption: string) | NoWebsite(message: string)

  datatype Card = Card(
    picture: Picture, heading: string, email: string, collegeLine: string,
    skillBadges: seq<string>, projects: seq<ProjectRow>,
    resume: ResumeSection, website: WebsiteSection)

  const NoResumeText: string := "No resume uploaded"
  const NoWebsiteText: string := "No website provided"
  const DownloadRoute: string := "/api/resume-download/"

  /** The resume part: the links, or the fallback when there is no resume. */
  function ResumeView(resumeUrl: string, decode: string -> string, encode: string -> string): ResumeSection {
    if resumeUrl != ""
    then ResumeLinks(StripUploadPrefix(decode(resumeUrl)), "#resume-preview", DownloadRoute + encode(resumeUrl))
    else NoResume(NoResumeText)
  }

  /** The website part: an `https://` link, or the fallback when there is no website. */
  function WebsiteView(website: Option<string>): WebsiteSection {
    if Truthy(website) then WebsiteLink("https://" + website.value, website.value) else NoWebsite(NoWebsiteText)
  }

  /**
   * `ProfileCard(props)`, with `decodeURIComponent` and
   * `encodeURIComponent` given as `decode` and `encode`.
   */
  function Render(props: Props, decode: string -> string, encode: string -> string): Card {
    Card(
      if Truthy(props.profilepictureUrl) then Photo(props.profilepictureUrl.value) else PlaceholderIcon,
      props.name, props.email, props.college + " - " + props.graduation,
      props.skills,
      seq(|props.projects|, i requires 0 <= i < |props.projects| => ProjectRow(props.projects[i].name, props.projects[i].link)),
      ResumeView(props.resumeUrl, decode, encode),
      WebsiteView(props.website))
  }

  /** The fallback text appears iff there is no resume; otherwise the caption is a suffix of the decoded name and the download goes through the resume route. */
  lemma ResumeSectionIff(props: Props, decode: string -> string, encode: string -> string)
    ensures var r := Render(props, decode, encode).resume;
            && (r == NoResume("No resume uploaded") <==> props.resumeUrl == "")
            && (r.ResumeLinks? ==>
                  var name := decode(props.resumeUrl);
                  && |r.caption| <= |name| && r.caption == name[|name| - |r.caption|..]
                  && r.downloadHref == "/api/resume-download/" + encode(props.resumeUrl))
  {
  }

  /** A non-empty website is linked as `"https://" + website`; otherwise the fallback text appears. */
  lemma WebsiteSectionIff(props: Props, decode: string -> string, encode: string -> string)
    ensures var w := Render(props, decode, encode).website;
            && (w == NoWebsite("No website provided") <==> props.website.None? || props.website.value == "")
            && (w.WebsiteLink? ==> w.href == "https://" + props.website.value && w.caption == props.website.value)
  {
  }

  /** The photo is shown iff a non-empty picture URL was passed, and then from that URL; otherwise the placeholder icon. */
  lemma PictureShownIff(props: Props, decode: string -> string, encode: string -> string)
    ensures var pic := Render(props, decode, encode).picture;
            && (pic == PlaceholderIcon <==> props.profilepictureUrl.None? || props.profilepictureUrl.value == "")
            && (pic.Photo? ==> pic.src == props.profilepictureUrl.value)
  {
  }

  /** The skills and the projects are shown as given, in order. */
  lemma RenderKeepsListOrder(props: Props, decode: string -> string, encode: string -> string)
    ensures Render(props, decode, encode).skillBadges == props.skills
    ensures |Render(props, decode, encode).projects| == |props.projects|
    ensures forall i :: 0 <= i < |props.projects| ==>
              Render(props, decode, encode).projects[i] == ProjectRow(props.projects[i].name, props.projects[i].link)
  {
  }
}
