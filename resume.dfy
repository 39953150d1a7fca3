/**
 * The portfolio's resume data, which the terminal's `about`, `skills`,
 * `projects` and `contact` commands print. Constants only.
 */
module Resume {

  datatype Project = Project(title: string, tech: seq<string>, description: string)

  const ABOUT: seq<string> := [
    "Results-driven SDET with 4+ years of experience building resilient automation frameworks and performance tests. I obsess over edge cases, reduce manual toil, and make flaky tests a thing of the past.",
    "Hands-on with Java, Selenium, Rest Assured, JMeter, and modern JavaScript toolchains. I use AI tooling to speed up delivery and make test systems smarter. I ship pragmatic automation that developers actually maintain."
  ]

  const SKILLS: seq<string> := [
    "Java",
    "Selenium",
    "Rest Assured",
    "SQL",
    "JMeter",
    "CI/CD (GitHub Actions)",
    "TestNG",
    "Usage of Python",
    "Usage of JavaScript",
    "React",
    "TailwindCSS",
    "NeedToChange-Docker"
  ]

  const EMAIL: string := "sankalppandey531@gmail.com"
  const LOCATION: string := "Pune, Maharashtra, India"
  const GITHUB: string := "github.com/LogicByteX"

  const PROJECTS: seq<Project> := [
    Project("Cinema Score Evaluator",
            ["Java", "Selenium", "Apache POI"],
            "Scrapes IMDb & Rotten Tomatoes to compute watch-verdicts and generate Excel reports. Automated end-to-end validations; integrating Apache POI for Excel-driven test data."),
    Project("WaveLength (voice search)",
            ["JavaScript", "React", "Google Search API", "Gemini API"],
            "Voice-based search that suggests nearby sites and context-aware results; integrates speech recognition and LLM-powered suggestions."),
    Project("SRM Helper",
            ["HTML", "JS", "MySQL"],
            "Campus e-portal to access notes and study material; improved availability for students.")
  ]
}
